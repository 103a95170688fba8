/**
  The rolling cohort features of the training set: for every payment, cohort level and
  window, how many strictly earlier payments of the same cohort were attempted and failed
  within the window. They are computed by prefix sums and binary search, and proved equal
  to counting.

  Rows are the terminal payments in order of epoch. Epochs are seconds, windows minutes.
 */
module RollingFeatures {
  import opened Common

  datatype Row = Row(
    epoch: int, failed: bool,
    payMethod: Option<string>, issuer: Option<string>, psp: Option<string>, gateway: Option<string>)

  type CohortKey = seq<Option<string>>

  const LEVELS := 4
  const MIN_ATTEMPTS := 3

  /** The levels in order: full, issuer and method, method, issuer. */
  function LevelKey(level: nat, p: Row): CohortKey
    requires level < LEVELS
  {
    match level
    case 0 => [p.payMethod, p.issuer, p.psp, p.gateway]
    case 1 => [p.issuer, p.payMethod]
    case 2 => [p.payMethod]
    case _ => [p.issuer]
  }

  ghost predicate Chronological(rows: seq<Row>) {
    forall i, j :: 0 <= i < j < |rows| ==> rows[i].epoch <= rows[j].epoch
  }

  // ---------------------------------------------------------------- counting

  predicate Counts(p: Row, cutoff: int, failedOnly: bool) {
    p.epoch >= cutoff && (failedOnly ==> p.failed)
  }

  /** Rows of a cohort among the first `upto`, not before the cutoff; all of them or the failed ones. */
  function InWindow(rows: seq<Row>, level: nat, key: CohortKey, cutoff: int, failedOnly: bool, upto: nat): nat
    requires level < LEVELS && upto <= |rows|
  {
    if upto == 0 then 0
    else
      InWindow(rows, level, key, cutoff, failedOnly, upto - 1)
      + if LevelKey(level, rows[upto - 1]) == key && Counts(rows[upto - 1], cutoff, failedOnly) then 1 else 0
  }

  /** What a row sees: strictly earlier rows of its cohort within the window. */
  function Seen(rows: seq<Row>, level: nat, i: nat, window: int, failedOnly: bool): nat
    requires level < LEVELS && i < |rows|
  {
    InWindow(rows, level, LevelKey(level, rows[i]), rows[i].epoch - window * 60, failedOnly, i)
  }

  /** The failure rate, or -1 when there are too few attempts to say. */
  function Rate(attempts: nat, failures: nat): real {
    if attempts >= MIN_ATTEMPTS then failures as real / attempts as real else -1.0
  }

  // ---------------------------------------------------------------- columns

  /** First column of a level: three blocks of one column a window. */
  function Base(windows: nat, level: nat): nat {
    if level == 0 then 0 else Base(windows, level - 1) + 3 * windows
  }

  /** Column of a level, a block (attempts, failures, rate) and a window. */
  function Column(windows: nat, level: nat, block: nat, w: nat): (c: nat)
    requires level < LEVELS && block < 3 && w < windows
    ensures Base(windows, level) <= c < Base(windows, level) + 3 * windows <= 12 * windows
  {
    BaseBound(windows, level);
    Base(windows, level) + (if block == 0 then 0 else if block == 1 then windows else 2 * windows) + w
  }

  lemma BaseBound(windows: nat, level: nat)
    requires level < LEVELS
    ensures Base(windows, level) ==
      if level == 0 then 0 else if level == 1 then 3 * windows else if level == 2 then 6 * windows else 9 * windows
  {
    assert Base(windows, 1) == Base(windows, 0) + 3 * windows;
    assert Base(windows, 2) == Base(windows, 1) + 3 * windows;
    assert Base(windows, 3) == Base(windows, 2) + 3 * windows;
  }

  /** No two features share a column. */
  lemma ColumnsDistinct(windows: nat, l1: nat, b1: nat, w1: nat, l2: nat, b2: nat, w2: nat)
    requires l1 < LEVELS && b1 < 3 && w1 < windows && l2 < LEVELS && b2 < 3 && w2 < windows
    requires Column(windows, l1, b1, w1) == Column(windows, l2, b2, w2)
    ensures l1 == l2 && b1 == b2 && w1 == w2
  {
    BaseBound(windows, l1);
    BaseBound(windows, l2);
  }

  // ---------------------------------------------------------------- cohorts

  ghost predicate Within(idxs: seq<nat>, n: nat) {
    forall t :: 0 <= t < |idxs| ==> idxs[t] < n
  }

  /** Positions of a cohort's rows among the first `upto`, in order. */
  function Cohort(rows: seq<Row>, level: nat, key: CohortKey, upto: nat): seq<nat>
    requires level < LEVELS && upto <= |rows|
  {
    if upto == 0 then []
    else if LevelKey(level, rows[upto - 1]) == key then Cohort(rows, level, key, upto - 1) + [upto - 1]
    else Cohort(rows, level, key, upto - 1)
  }

  /** The positions rise, and are exactly those of the cohort's rows. */
  lemma {:induction false} CohortSound(rows: seq<Row>, level: nat, key: CohortKey, upto: nat)
    requires level < LEVELS && upto <= |rows|
    ensures var idxs := Cohort(rows, level, key, upto);
      && Within(idxs, upto)
      && (forall s, t :: 0 <= s < t < |idxs| ==> idxs[s] < idxs[t])
      && (forall t :: 0 <= t < |idxs| ==> LevelKey(level, rows[idxs[t]]) == key)
  {
    hide LevelKey;
    if upto > 0 {
      CohortSound(rows, level, key, upto - 1);
    }
  }

  lemma {:induction false} CohortComplete(rows: seq<Row>, level: nat, key: CohortKey, upto: nat, i: nat)
    requires level < LEVELS && upto <= |rows| && i < upto && LevelKey(level, rows[i]) == key
    ensures i in Cohort(rows, level, key, upto)
  {
    if i < upto - 1 {
      CohortComplete(rows, level, key, upto - 1, i);
    }
  }

  /** Before a row of a cohort come the ones listed before it. */
  lemma {:induction false} CohortPrefix(rows: seq<Row>, level: nat, key: CohortKey, upto: nat, j: nat)
    requires level < LEVELS && upto <= |rows| && j < |Cohort(rows, level, key, upto)|
    ensures var idxs := Cohort(rows, level, key, upto);
      idxs[j] < upto && Cohort(rows, level, key, idxs[j]) == idxs[..j]
  {
    var init := Cohort(rows, level, key, upto - 1);
    if j < |init| {
      CohortPrefix(rows, level, key, upto - 1, j);
    }
  }

  function CountFrom(rows: seq<Row>, idxs: seq<nat>, cutoff: int, failedOnly: bool): nat
    requires Within(idxs, |rows|)
  {
    if idxs == [] then 0
    else
      CountFrom(rows, idxs[..|idxs| - 1], cutoff, failedOnly)
      + if Counts(rows[idxs[|idxs| - 1]], cutoff, failedOnly) then 1 else 0
  }

  lemma CountSnoc(rows: seq<Row>, idxs: seq<nat>, i: nat, cutoff: int, failedOnly: bool)
    requires i < |rows| && Within(idxs + [i], |rows|) && Within(idxs, |rows|)
    ensures CountFrom(rows, idxs + [i], cutoff, failedOnly) ==
      CountFrom(rows, idxs, cutoff, failedOnly) + if Counts(rows[i], cutoff, failedOnly) then 1 else 0
  {
    assert (idxs + [i])[..|idxs|] == idxs && (idxs + [i])[|idxs|] == i;
  }

  lemma {:induction false} CohortWithin(rows: seq<Row>, level: nat, key: CohortKey, upto: nat)
    requires level < LEVELS && upto <= |rows|
    ensures Within(Cohort(rows, level, key, upto), upto)
  {
    if upto > 0 {
      CohortWithin(rows, level, key, upto - 1);
    }
  }

  /** One more row counts over all rows as it counts over the cohort. */
  lemma CountStep(rows: seq<Row>, level: nat, key: CohortKey, cutoff: int, failedOnly: bool, i: nat)
    requires level < LEVELS && i < |rows|
    requires Within(Cohort(rows, level, key, i), i) && Within(Cohort(rows, level, key, i + 1), i + 1)
    ensures
      InWindow(rows, level, key, cutoff, failedOnly, i + 1) - InWindow(rows, level, key, cutoff, failedOnly, i) ==
      CountFrom(rows, Cohort(rows, level, key, i + 1), cutoff, failedOnly)
      - CountFrom(rows, Cohort(rows, level, key, i), cutoff, failedOnly)
  {
    var init := Cohort(rows, level, key, i);
    if LevelKey(level, rows[i]) == key {
      assert Cohort(rows, level, key, i + 1) == init + [i];
      CountSnoc(rows, init, i, cutoff, failedOnly);
    } else {
      assert Cohort(rows, level, key, i + 1) == init;
    }
  }

  /** Counting over all rows is counting over the cohort. */
  lemma {:induction false} CountOverCohort(rows: seq<Row>, level: nat, key: CohortKey, cutoff: int,
                                           failedOnly: bool, upto: nat)
    requires level < LEVELS && upto <= |rows| && Within(Cohort(rows, level, key, upto), upto)
    ensures InWindow(rows, level, key, cutoff, failedOnly, upto)
         == CountFrom(rows, Cohort(rows, level, key, upto), cutoff, failedOnly)
  {
    hide LevelKey, Counts;
    if upto > 0 {
      CohortWithin(rows, level, key, upto - 1);
      CountOverCohort(rows, level, key, cutoff, failedOnly, upto - 1);
      CountStep(rows, level, key, cutoff, failedOnly, upto - 1);
    }
  }

  /** Failures among the first rows of a cohort: the prefix sums. */
  function FailedUpto(rows: seq<Row>, idxs: seq<nat>): nat
    requires Within(idxs, |rows|)
  {
    if idxs == [] then 0 else FailedUpto(rows, idxs[..|idxs| - 1]) + if rows[idxs[|idxs| - 1]].failed then 1 else 0
  }

  /** Where a cohort in order passes the cutoff: everything before lies before it, the rest does not. */
  ghost predicate Splits(rows: seq<Row>, idxs: seq<nat>, cutoff: int, lo: nat)
    requires Within(idxs, |rows|)
  {
    && lo <= |idxs|
    && (forall t :: 0 <= t < lo ==> rows[idxs[t]].epoch < cutoff)
    && (forall t :: lo <= t < |idxs| ==> rows[idxs[t]].epoch >= cutoff)
  }

  function Min(a: nat, b: nat): nat { if a < b then a else b }

  /** Prefix sums and the split position give the two counts. */
  lemma {:induction false} PrefixSums(rows: seq<Row>, idxs: seq<nat>, cutoff: int, lo: nat, j: nat)
    requires Within(idxs, |rows|) && Splits(rows, idxs, cutoff, lo) && j <= |idxs|
    ensures CountFrom(rows, idxs[..j], cutoff, false) == j - Min(lo, j)
    ensures CountFrom(rows, idxs[..j], cutoff, true) ==
      FailedUpto(rows, idxs[..j]) - FailedUpto(rows, idxs[..Min(lo, j)])
  {
    if j > 0 {
      PrefixSums(rows, idxs, cutoff, lo, j - 1);
      assert idxs[..j][..j - 1] == idxs[..j - 1];
    }
  }

  /** What a row sees, counted over the rows of its cohort before it. */
  lemma SeenInCohort(rows: seq<Row>, level: nat, key: CohortKey, idxs: seq<nat>, j: nat, window: int, onlyFailed: bool)
    requires level < LEVELS && idxs == Cohort(rows, level, key, |rows|) && j < |idxs| && Within(idxs, |rows|)
    requires LevelKey(level, rows[idxs[j]]) == key
    ensures Seen(rows, level, idxs[j], window, onlyFailed) ==
      CountFrom(rows, idxs[..j], rows[idxs[j]].epoch - window * 60, onlyFailed)
  {
    CohortPrefix(rows, level, key, |rows|, j);
    CohortWithin(rows, level, key, idxs[j]);
    CountOverCohort(rows, level, key, rows[idxs[j]].epoch - window * 60, onlyFailed, idxs[j]);
  }

  /** So a row sees what the prefix sums of its cohort say. */
  lemma SeenByPrefixSums(rows: seq<Row>, level: nat, key: CohortKey, idxs: seq<nat>, j: nat, window: int, lo: nat)
    requires level < LEVELS && idxs == Cohort(rows, level, key, |rows|) && j < |idxs| && Within(idxs, |rows|)
    requires Splits(rows, idxs, rows[idxs[j]].epoch - window * 60, lo) && LevelKey(level, rows[idxs[j]]) == key
    ensures Seen(rows, level, idxs[j], window, false) == j - Min(lo, j)
    ensures Seen(rows, level, idxs[j], window, true) ==
      FailedUpto(rows, idxs[..j]) - FailedUpto(rows, idxs[..Min(lo, j)])
  {
    SeenInCohort(rows, level, key, idxs, j, window, false);
    SeenInCohort(rows, level, key, idxs, j, window, true);
    PrefixSums(rows, idxs, rows[idxs[j]].epoch - window * 60, lo, j);
  }

  // ---------------------------------------------------------------- the matrix

  /** Leftmost position whose epoch is not before `x`. */
  method SearchSorted(ep: array<int>, x: int) returns (lo: nat)
    requires forall i, j :: 0 <= i < j < ep.Length ==> ep[i] <= ep[j]
    ensures lo <= ep.Length
    ensures forall t :: 0 <= t < lo ==> ep[t] < x
    ensures forall t :: lo <= t < ep.Length ==> ep[t] >= x
  {
    lo := 0;
    var hi := ep.Length;
    while lo < hi
      invariant 0 <= lo <= hi <= ep.Length
      invariant forall t :: 0 <= t < lo ==> ep[t] < x
      invariant forall t :: hi <= t < ep.Length ==> ep[t] >= x
    {
      var mid := (lo + hi) / 2;
      if ep[mid] < x {
        lo := mid + 1;
      } else {
        hi := mid;
      }
    }
  }

  type Matrix = seq<seq<real>>

  /** The contents of the matrix. */
  ghost function Cells(X: array2<real>): (m: Matrix)
    reads X
    ensures |m| == X.Length0 && forall r :: 0 <= r < X.Length0 ==> |m[r]| == X.Length1
    ensures forall r, c :: 0 <= r < X.Length0 && 0 <= c < X.Length1 ==> m[r][c] == X[r, c]
  {
    seq(X.Length0, r requires 0 <= r < X.Length0 reads X =>
      seq(X.Length1, c requires 0 <= c < X.Length1 reads X => X[r, c]))
  }

  ghost predicate Shaped(m: Matrix, rows: seq<Row>, windows: seq<int>) {
    |m| == |rows| && forall r :: 0 <= r < |m| ==> |m[r]| == 12 * |windows| + STATIC_COLUMNS
  }

  /** The three cells of a row, a level and a window hold the counts and the rate. */
  ghost predicate CellsDone(m: Matrix, rows: seq<Row>, windows: seq<int>, i: nat, level: nat, w: nat)
    requires Shaped(m, rows, windows) && i < |rows| && level < LEVELS && w < |windows|
  {
    var a, f := Seen(rows, level, i, windows[w], false), Seen(rows, level, i, windows[w], true);
    && m[i][Column(|windows|, level, 0, w)] == a as real
    && m[i][Column(|windows|, level, 1, w)] == f as real
    && m[i][Column(|windows|, level, 2, w)] == Rate(a, f)
  }

  ghost predicate RowDone(m: Matrix, rows: seq<Row>, windows: seq<int>, i: nat, level: nat)
    requires Shaped(m, rows, windows) && i < |rows| && level < LEVELS
  {
    RowUpto(m, rows, windows, i, level, |windows|)
  }

  ghost predicate RowUpto(m: Matrix, rows: seq<Row>, windows: seq<int>, i: nat, level: nat, n: nat)
    requires Shaped(m, rows, windows) && i < |rows| && level < LEVELS && n <= |windows|
  {
    forall w :: 0 <= w < n ==> CellsDone(m, rows, windows, i, level, w)
  }

  /** A cell outside the columns of a level, or outside these rows. */
  predicate Elsewhere(idxs: seq<nat>, windows: nat, level: nat, r: nat, c: nat) {
    r !in idxs || c < Base(windows, level) || Base(windows, level) + 3 * windows <= c
  }

  /** Nothing changed outside the cells of these rows at this level. */
  ghost predicate OnlyAt(m: Matrix, n: Matrix, idxs: seq<nat>, windows: nat, level: nat) {
    && |n| == |m| && (forall r :: 0 <= r < |m| ==> |n[r]| == |m[r]|)
    && forall r: nat, c: nat :: r < |m| && c < |m[r]| && Elsewhere(idxs, windows, level, r, c) ==> n[r][c] == m[r][c]
  }

  /** A row done before is still done, unless it was written at this level. */
  lemma RowKept(m: Matrix, n: Matrix, rows: seq<Row>, windows: seq<int>, idxs: seq<nat>, level: nat, i: nat, done: nat)
    requires Shaped(m, rows, windows) && OnlyAt(m, n, idxs, |windows|, level) && level < LEVELS
    requires i < |rows| && done < LEVELS && (i !in idxs || done < level) && RowDone(m, rows, windows, i, done)
    ensures RowDone(n, rows, windows, i, done)
  {
    BaseBound(|windows|, level);
    BaseBound(|windows|, done);
    forall w | 0 <= w < |windows| ensures CellsDone(n, rows, windows, i, done, w) {
      assert CellsDone(m, rows, windows, i, done, w);
      assert Elsewhere(idxs, |windows|, level, i, Column(|windows|, done, 0, w));
      assert Elsewhere(idxs, |windows|, level, i, Column(|windows|, done, 1, w));
      assert Elsewhere(idxs, |windows|, level, i, Column(|windows|, done, 2, w));
    }
  }

  /** Writing within more rows: two steps, each within its rows, stay within both. */
  lemma OnlyAtThrough(m: Matrix, n: Matrix, o: Matrix, some: seq<nat>, idxs: seq<nat>, windows: nat, level: nat)
    requires OnlyAt(m, n, idxs, windows, level) && OnlyAt(n, o, some, windows, level)
    requires forall r :: r in some ==> r in idxs
    ensures OnlyAt(m, o, idxs, windows, level)
  {
    forall r: nat, c: nat | r < |m| && c < |m[r]| && Elsewhere(idxs, windows, level, r, c) ensures o[r][c] == m[r][c] {
      assert Elsewhere(some, windows, level, r, c);
    }
  }

  /** Epochs and prefix sums of a cohort. */
  ghost predicate Prefixes(rows: seq<Row>, idxs: seq<nat>, ep: array<int>, attempts: array<int>, failures: array<int>)
    requires Within(idxs, |rows|)
    reads ep, attempts, failures
  {
    && ep.Length == |idxs| && attempts.Length == failures.Length == |idxs| + 1
    && (forall t :: 0 <= t < |idxs| ==> ep[t] == rows[idxs[t]].epoch)
    && (forall t :: 0 <= t <= |idxs| ==> attempts[t] == t && failures[t] == FailedUpto(rows, idxs[..t]))
  }

  method BuildPrefixes(rows: seq<Row>, idxs: seq<nat>)
    returns (ep: array<int>, attempts: array<int>, failures: array<int>)
    requires Within(idxs, |rows|)
    ensures Prefixes(rows, idxs, ep, attempts, failures)
    ensures fresh(ep) && fresh(attempts) && fresh(failures)
  {
    ep := new int[|idxs|];
    attempts, failures := new int[|idxs| + 1], new int[|idxs| + 1];
    attempts[0], failures[0] := 0, 0;
    for t := 0 to |idxs|
      invariant forall s :: 0 <= s < t ==> ep[s] == rows[idxs[s]].epoch
      invariant forall s :: 0 <= s <= t ==> attempts[s] == s && failures[s] == FailedUpto(rows, idxs[..s])
    {
      assert idxs[..t + 1][..t] == idxs[..t];
      ep[t] := rows[idxs[t]].epoch;
      attempts[t + 1] := attempts[t] + 1;
      failures[t + 1] := failures[t] + if rows[idxs[t]].failed then 1 else 0;
    }
  }

  ghost predicate GroupOf(rows: seq<Row>, level: nat, idxs: seq<nat>)
    requires level < LEVELS
  {
    && Within(idxs, |rows|)
    && (forall s, t :: 0 <= s < t < |idxs| ==> idxs[s] < idxs[t])
    && forall t :: 0 <= t < |idxs| ==> idxs == Cohort(rows, level, LevelKey(level, rows[idxs[t]]), |rows|)
  }

  /** The counts of one row and window, from the prefix sums. */
  method CountWindow(
    rows: seq<Row>, level: nat, idxs: seq<nat>, j: nat, window: int,
    ep: array<int>, attempts: array<int>, failures: array<int>)
    returns (a: nat, f: nat)
    requires level < LEVELS && Chronological(rows) && GroupOf(rows, level, idxs) && j < |idxs|
    requires Prefixes(rows, idxs, ep, attempts, failures)
    ensures a == Seen(rows, level, idxs[j], window, false)
    ensures f == Seen(rows, level, idxs[j], window, true)
  {
    var lo := SearchSorted(ep, ep[j] - window * 60);
    SeenByPrefixSums(rows, level, LevelKey(level, rows[idxs[j]]), idxs, j, window, lo);
    if j < lo {
      lo := j;
    }
    a, f := attempts[j] - attempts[lo], failures[j] - failures[lo];
  }

  ghost predicate Sized(X: array2<real>, rows: seq<Row>, windows: seq<int>) {
    X.Length0 == |rows| && X.Length1 == 12 * |windows| + STATIC_COLUMNS
  }

  /** Nothing changed but three cells of a row. */
  ghost predicate OnlyCells(m: Matrix, n: Matrix, i: nat, c0: nat, c1: nat, c2: nat) {
    && |n| == |m| && (forall r :: 0 <= r < |m| ==> |n[r]| == |m[r]|)
    && forall r: nat, c: nat :: r < |m| && c < |m[r]| && (r != i || c !in {c0, c1, c2}) ==> n[r][c] == m[r][c]
  }

  /** Writes the three cells of a row, a level and a window. */
  method WriteCells(X: array2<real>, windows: nat, level: nat, i: nat, w: nat, a: nat, f: nat)
    requires i < X.Length0 && level < LEVELS && w < windows && 12 * windows <= X.Length1
    modifies X
    ensures var m := Cells(X);
      && m[i][Column(windows, level, 0, w)] == a as real
      && m[i][Column(windows, level, 1, w)] == f as real
      && m[i][Column(windows, level, 2, w)] == Rate(a, f)
    ensures OnlyCells(old(Cells(X)), Cells(X), i,
      Column(windows, level, 0, w), Column(windows, level, 1, w), Column(windows, level, 2, w))
  {
    var c0, c1, c2 := Column(windows, level, 0, w), Column(windows, level, 1, w), Column(windows, level, 2, w);
    X[i, c0] := a as real;
    X[i, c1] := f as real;
    X[i, c2] := if a >= MIN_ATTEMPTS then f as real / a as real else -1.0;
  }

  method FillRow(X: array2<real>, rows: seq<Row>, windows: seq<int>, level: nat, idxs: seq<nat>, j: nat,
                 ep: array<int>, attempts: array<int>, failures: array<int>)
    requires Sized(X, rows, windows) && level < LEVELS
    requires Chronological(rows) && GroupOf(rows, level, idxs) && j < |idxs|
    requires Prefixes(rows, idxs, ep, attempts, failures)
    modifies X
    ensures OnlyAt(old(Cells(X)), Cells(X), [idxs[j]], |windows|, level)
    ensures RowDone(Cells(X), rows, windows, idxs[j], level)
  {
    var i := idxs[j];
    for w := 0 to |windows|
      invariant OnlyAt(old(Cells(X)), Cells(X), [i], |windows|, level)
      invariant RowUpto(Cells(X), rows, windows, i, level, w)
    {
      ghost var before := Cells(X);
      var a, f := CountWindow(rows, level, idxs, j, windows[w], ep, attempts, failures);
      WriteCells(X, |windows|, level, i, w, a, f);
      CellsAdvance(before, Cells(X), rows, windows, level, i, w);
      OnlyAtThrough(old(Cells(X)), before, Cells(X), [i], [i], |windows|, level);
    }
  }

  /** Writing the cells of one window keeps those of the windows before it. */
  lemma CellsAdvance(m: Matrix, n: Matrix, rows: seq<Row>, windows: seq<int>, level: nat, i: nat, w: nat)
    requires Shaped(m, rows, windows) && Shaped(n, rows, windows) && i < |rows| && level < LEVELS && w < |windows|
    requires OnlyCells(m, n, i,
      Column(|windows|, level, 0, w), Column(|windows|, level, 1, w), Column(|windows|, level, 2, w))
    requires RowUpto(m, rows, windows, i, level, w) && CellsDone(n, rows, windows, i, level, w)
    ensures OnlyAt(m, n, [i], |windows|, level) && RowUpto(n, rows, windows, i, level, w + 1)
  {
    forall v | 0 <= v < w ensures CellsDone(n, rows, windows, i, level, v) {
      assert CellsDone(m, rows, windows, i, level, v);
    }
  }

  method FillGroup(X: array2<real>, rows: seq<Row>, windows: seq<int>, level: nat, idxs: seq<nat>)
    requires Sized(X, rows, windows) && level < LEVELS
    requires Chronological(rows) && GroupOf(rows, level, idxs)
    modifies X
    ensures OnlyAt(old(Cells(X)), Cells(X), idxs, |windows|, level)
    ensures RowsUpto(Cells(X), rows, windows, idxs, level, |idxs|)
  {
    var ep, attempts, failures := BuildPrefixes(rows, idxs);
    for j := 0 to |idxs|
      invariant Prefixes(rows, idxs, ep, attempts, failures)
      invariant OnlyAt(old(Cells(X)), Cells(X), idxs, |windows|, level)
      invariant RowsUpto(Cells(X), rows, windows, idxs, level, j)
    {
      ghost var before := Cells(X);
      FillRow(X, rows, windows, level, idxs, j, ep, attempts, failures);
      OnlyAtThrough(old(Cells(X)), before, Cells(X), [idxs[j]], idxs, |windows|, level);
      RowsAdvance(before, Cells(X), rows, windows, level, idxs, j);
    }
  }

  /** The first `n` rows of a cohort are done. */
  ghost predicate RowsUpto(m: Matrix, rows: seq<Row>, windows: seq<int>, idxs: seq<nat>, level: nat, n: nat)
    requires Shaped(m, rows, windows) && Within(idxs, |rows|) && level < LEVELS && n <= |idxs|
  {
    forall t :: 0 <= t < n ==> RowDone(m, rows, windows, idxs[t], level)
  }

  lemma RowsAdvance(m: Matrix, n: Matrix, rows: seq<Row>, windows: seq<int>, level: nat, idxs: seq<nat>, j: nat)
    requires Shaped(m, rows, windows) && level < LEVELS && j < |idxs| && GroupOf(rows, level, idxs)
    requires OnlyAt(m, n, [idxs[j]], |windows|, level)
    requires RowsUpto(m, rows, windows, idxs, level, j) && RowDone(n, rows, windows, idxs[j], level)
    ensures RowsUpto(n, rows, windows, idxs, level, j + 1)
  {
    forall t | 0 <= t < j ensures RowDone(n, rows, windows, idxs[t], level) {
      RowKept(m, n, rows, windows, [idxs[j]], level, idxs[t], level);
    }
  }

  lemma {:induction false} EmptyCohort(rows: seq<Row>, level: nat, key: CohortKey, upto: nat)
    requires level < LEVELS && upto <= |rows| && forall k :: 0 <= k < upto ==> LevelKey(level, rows[k]) != key
    ensures Cohort(rows, level, key, upto) == []
  {
    if upto > 0 {
      EmptyCohort(rows, level, key, upto - 1);
    }
  }

  /** The cohorts of the first `n` rows. */
  ghost predicate Grouped(groups: map<CohortKey, seq<nat>>, rows: seq<Row>, level: nat, n: nat)
    requires level < LEVELS && n <= |rows|
  {
    && (forall key :: key in groups ==> groups[key] == Cohort(rows, level, key, n))
    && forall k :: 0 <= k < n ==> LevelKey(level, rows[k]) in groups
  }

  function Appended(groups: map<CohortKey, seq<nat>>, key: CohortKey, i: nat): map<CohortKey, seq<nat>> {
    groups[key := (if key in groups then groups[key] else []) + [i]]
  }

  lemma GroupedStep(groups: map<CohortKey, seq<nat>>, rows: seq<Row>, level: nat, i: nat)
    requires level < LEVELS && i < |rows| && Grouped(groups, rows, level, i)
    ensures Grouped(Appended(groups, LevelKey(level, rows[i]), i), rows, level, i + 1)
  {
    var key := LevelKey(level, rows[i]);
    if key !in groups {
      EmptyCohort(rows, level, key, i);
    }
  }

  /** The cohorts of a level, in order of first appearance. */
  method GroupRows(rows: seq<Row>, level: nat) returns (keys: seq<CohortKey>, groups: map<CohortKey, seq<nat>>)
    requires level < LEVELS
    ensures (forall key :: key in keys <==> key in groups) && Grouped(groups, rows, level, |rows|)
  {
    keys, groups := [], map[];
    for i := 0 to |rows|
      invariant (forall key :: key in keys <==> key in groups) && Grouped(groups, rows, level, i)
    {
      var key := LevelKey(level, rows[i]);
      GroupedStep(groups, rows, level, i);
      ghost var before := groups;
      if key !in groups {
        keys := keys + [key];
        groups := groups[key := [] + [i]];
      } else {
        groups := groups[key := groups[key] + [i]];
      }
      assert groups == Appended(before, key, i);
    }
  }

  ghost function All(n: nat): seq<nat> { seq(n, i => i) }

  method FillLevel(X: array2<real>, rows: seq<Row>, windows: seq<int>, level: nat)
    requires Sized(X, rows, windows) && level < LEVELS && Chronological(rows)
    modifies X
    ensures OnlyAt(old(Cells(X)), Cells(X), All(|rows|), |windows|, level)
    ensures forall i :: 0 <= i < |rows| ==> RowDone(Cells(X), rows, windows, i, level)
  {
    hide LevelKey, Seen, CellsDone, RowUpto;
    var keys, groups := GroupRows(rows, level);
    for k := 0 to |keys|
      invariant OnlyAt(old(Cells(X)), Cells(X), All(|rows|), |windows|, level)
      invariant forall i :: 0 <= i < |rows| && LevelKey(level, rows[i]) in keys[..k] ==>
                  RowDone(Cells(X), rows, windows, i, level)
    {
      var idxs := groups[keys[k]];
      CohortSound(rows, level, keys[k], |rows|);
      ghost var before := Cells(X);
      FillGroup(X, rows, windows, level, idxs);
      assert forall r :: r in idxs ==> 0 <= r < |rows| && r == All(|rows|)[r];
      OnlyAtThrough(old(Cells(X)), before, Cells(X), idxs, All(|rows|), |windows|, level);
      forall i | 0 <= i < |rows| && LevelKey(level, rows[i]) in keys[..k + 1]
        ensures RowDone(Cells(X), rows, windows, i, level)
      {
        if LevelKey(level, rows[i]) == keys[k] {
          CohortComplete(rows, level, keys[k], |rows|, i);
        } else {
          RowKept(before, Cells(X), rows, windows, idxs, level, i, level);
        }
      }
    }
    assert keys[..|keys|] == keys;
  }

  const STATIC_COLUMNS := 16

  /** Every row, level and window holds exactly what counting strictly earlier rows gives. */
  method BuildRolling(rows: seq<Row>, windows: seq<int>) returns (X: array2<real>)
    requires Chronological(rows)
    ensures fresh(X) && Sized(X, rows, windows)
    ensures forall level: nat, i: nat :: level < LEVELS && i < |rows| ==> RowDone(Cells(X), rows, windows, i, level)
  {
    X := new real[|rows|, 12 * |windows| + STATIC_COLUMNS]((_, _) => 0.0);
    for level := 0 to LEVELS
      invariant forall done: nat, i: nat :: done < level && i < |rows| ==> RowDone(Cells(X), rows, windows, i, done)
    {
      ghost var before := Cells(X);
      FillLevel(X, rows, windows, level);
      forall done: nat, i: nat | done < level && i < |rows| ensures RowDone(Cells(X), rows, windows, i, done) {
        RowKept(before, Cells(X), rows, windows, All(|rows|), level, i, done);
      }
    }
  }

  // ---------------------------------------------------------------- no leakage

  lemma {:induction false} LaterRowsUncounted(
    rows: seq<Row>, more: seq<Row>, level: nat, key: CohortKey, cutoff: int, failedOnly: bool, upto: nat)
    requires level < LEVELS && upto <= |rows|
    ensures InWindow(rows + more, level, key, cutoff, failedOnly, upto) ==
      InWindow(rows, level, key, cutoff, failedOnly, upto)
  {
    if upto > 0 {
      LaterRowsUncounted(rows, more, level, key, cutoff, failedOnly, upto - 1);
    }
  }

  /** Rows that come later, whatever they are, change nothing an earlier row sees. */
  lemma LaterRowsUnseen(rows: seq<Row>, more: seq<Row>, level: nat, i: nat, window: int, failedOnly: bool)
    requires level < LEVELS && i < |rows|
    ensures Seen(rows + more, level, i, window, failedOnly) == Seen(rows, level, i, window, failedOnly)
  {
    LaterRowsUncounted(rows, more, level, LevelKey(level, rows[i]), rows[i].epoch - window * 60, failedOnly, i);
  }
}
