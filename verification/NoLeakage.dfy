/**
  No leakage from the future: whatever payments come later, in time or by reference within
  one second, and wherever they stand in the unsorted input, the rows and the rolling cells
  of the earlier payments are what they were.
 */
module NoLeakage {
  import opened RollingFeatures
  import opened TrainingRows

  /** The payments strictly before `q` in epoch and reference. */
  function Earlier(payments: seq<Payment>, q: Payment): seq<Payment> {
    if payments == [] then []
    else
      var init, p := Earlier(payments[..|payments| - 1], q), payments[|payments| - 1];
      if Leq(q, p) then init else init + [p]
  }

  /** The others. */
  function Later(payments: seq<Payment>, q: Payment): seq<Payment> {
    if payments == [] then []
    else
      var init, p := Later(payments[..|payments| - 1], q), payments[|payments| - 1];
      if Leq(q, p) then init + [p] else init
  }

  ghost predicate AllEarlier(s: seq<Payment>, q: Payment) {
    forall i :: 0 <= i < |s| ==> !Leq(q, s[i])
  }

  ghost predicate AllLater(s: seq<Payment>, q: Payment) {
    forall i :: 0 <= i < |s| ==> Leq(q, s[i])
  }

  lemma {:induction false} InsertKind(s: seq<Payment>, p: Payment, q: Payment)
    ensures AllEarlier(s, q) && !Leq(q, p) ==> AllEarlier(Insert(s, p), q)
    ensures AllLater(s, q) && Leq(q, p) ==> AllLater(Insert(s, p), q)
  {
    if s != [] && !Leq(s[|s| - 1], p) {
      InsertKind(s[..|s| - 1], p, q);
    }
  }

  lemma {:induction false} SortedKinds(payments: seq<Payment>, q: Payment)
    ensures AllEarlier(Sort(Earlier(payments, q)), q) && AllLater(Sort(Later(payments, q)), q)
  {
    if payments != [] {
      var init, p := payments[..|payments| - 1], payments[|payments| - 1];
      SortedKinds(init, q);
      SortSnoc(Earlier(init, q), p);
      SortSnoc(Later(init, q), p);
      InsertKind(Sort(Earlier(init, q)), p, q);
      InsertKind(Sort(Later(init, q)), p, q);
    }
  }

  lemma SortSnoc(payments: seq<Payment>, p: Payment)
    ensures Sort(payments + [p]) == Insert(Sort(payments), p)
  {
    assert (payments + [p])[..|payments|] == payments;
  }

  /** A later payment is inserted after all earlier ones. */
  lemma {:induction false} InsertLater(a: seq<Payment>, b: seq<Payment>, p: Payment, q: Payment)
    requires AllEarlier(a, q) && Leq(q, p)
    ensures Insert(a + b, p) == a + Insert(b, p)
  {
    if b == [] {
      assert a + b == a;
      if a != [] {
        EarlierLeq(a[|a| - 1], p, q);
      }
    } else {
      var init, last := b[..|b| - 1], b[|b| - 1];
      assert (a + b)[..|a + b| - 1] == a + init && (a + b)[|a + b| - 1] == last;
      if Leq(last, p) {
        assert a + b + [p] == a + (b + [p]);
      } else {
        InsertLater(a, init, p, q);
        assert a + Insert(init, p) + [last] == a + (Insert(init, p) + [last]);
      }
    }
  }

  lemma EarlierLeq(x: Payment, p: Payment, q: Payment)
    requires !Leq(q, x) && Leq(q, p)
    ensures Leq(x, p)
  {
    TextTotal(x.ref, q.ref);
    LeqTransitive(x, q, p);
  }

  /** An earlier payment is inserted before all later ones. */
  lemma {:induction false} InsertEarlier(a: seq<Payment>, b: seq<Payment>, p: Payment, q: Payment)
    requires AllLater(b, q) && !Leq(q, p)
    ensures Insert(a + b, p) == Insert(a, p) + b
  {
    if b == [] {
      assert a + b == a && Insert(a, p) + [] == Insert(a, p);
    } else {
      var init, last := b[..|b| - 1], b[|b| - 1];
      assert (a + b)[..|a + b| - 1] == a + init && (a + b)[|a + b| - 1] == last;
      if Leq(last, p) {
        LeqTransitive(q, last, p);
      }
      InsertEarlier(a, init, p, q);
      assert Insert(a, p) + init + [last] == Insert(a, p) + b;
    }
  }

  /** Sorting keeps the earlier payments as a prefix, sorted among themselves. */
  lemma {:induction false} SortSplits(payments: seq<Payment>, q: Payment)
    ensures Sort(payments) == Sort(Earlier(payments, q)) + Sort(Later(payments, q))
  {
    if payments != [] {
      var init, p := payments[..|payments| - 1], payments[|payments| - 1];
      var a, b := Sort(Earlier(init, q)), Sort(Later(init, q));
      SortSplits(init, q);
      SortedKinds(init, q);
      if Leq(q, p) {
        InsertLater(a, b, p, q);
        SortSnoc(Later(init, q), p);
      } else {
        InsertEarlier(a, b, p, q);
        SortSnoc(Earlier(init, q), p);
      }
    }
  }

  // ---------------------------------------------------------------- two data sets

  /** The first `n` rows of two data sets, and all their rolling cells, are the same. */
  ghost predicate SameUpto(n: nat, windows: seq<int>, rows: seq<Row>, m: Matrix, others: seq<Row>, o: Matrix)
    requires Shaped(m, rows, windows) && Shaped(o, others, windows)
  {
    && n <= |rows| && n <= |others| && rows[..n] == others[..n]
    && forall i, level: nat, block: nat, w: nat ::
         0 <= i < n && level < LEVELS && block < 3 && w < |windows| ==> SameCell(m, o, i, |windows|, level, block, w)
  }

  ghost predicate SameCell(m: Matrix, o: Matrix, i: nat, windows: nat, level: nat, block: nat, w: nat)
    requires level < LEVELS && block < 3 && w < windows && i < |m| && i < |o|
    requires |m[i]| == |o[i]| == 12 * windows + STATIC_COLUMNS
  {
    m[i][Column(windows, level, block, w)] == o[i][Column(windows, level, block, w)]
  }

  lemma SeenFromPrefix(rows: seq<Row>, others: seq<Row>, n: nat, level: nat, i: nat, window: int, onlyFailed: bool)
    requires n <= |rows| && n <= |others| && rows[..n] == others[..n] && i < n && level < LEVELS
    ensures Seen(rows, level, i, window, onlyFailed) == Seen(others, level, i, window, onlyFailed)
  {
    assert rows == rows[..n] + rows[n..] && others == rows[..n] + others[n..];
    LaterRowsUnseen(rows[..n], rows[n..], level, i, window, onlyFailed);
    LaterRowsUnseen(rows[..n], others[n..], level, i, window, onlyFailed);
  }

  lemma CellsFromPrefix(windows: seq<int>, rows: seq<Row>, m: Matrix, others: seq<Row>, o: Matrix, n: nat,
                        i: nat, level: nat, block: nat, w: nat)
    requires Shaped(m, rows, windows) && Shaped(o, others, windows) && level < LEVELS && block < 3 && w < |windows|
    requires n <= |rows| && n <= |others| && rows[..n] == others[..n] && i < n
    requires RowDone(m, rows, windows, i, level) && RowDone(o, others, windows, i, level)
    ensures SameCell(m, o, i, |windows|, level, block, w)
  {
    assert CellsDone(m, rows, windows, i, level, w) && CellsDone(o, others, windows, i, level, w);
    SeenFromPrefix(rows, others, n, level, i, windows[w], false);
    SeenFromPrefix(rows, others, n, level, i, windows[w], true);
  }

  lemma EarlierRows(payments: seq<Payment>, q: Payment)
    ensures var term := TerminalOnly(payments);
      var rows, first := RowsOf(Sort(term)), RowsOf(Sort(Earlier(term, q)));
      |first| <= |rows| && rows[..|first|] == first
  {
    SortSplits(TerminalOnly(payments), q);
  }

  /** Two inputs with the same earlier payments, in the same order, give them the same rows and cells. */
  lemma EarlierDecide(a: seq<Payment>, b: seq<Payment>, q: Payment, windows: seq<int>,
                      rows: seq<Row>, m: Matrix, others: seq<Row>, o: Matrix)
    requires Dataset(a, windows, rows, m) && Dataset(b, windows, others, o)
    requires Earlier(TerminalOnly(a), q) == Earlier(TerminalOnly(b), q)
    ensures SameUpto(|Sort(Earlier(TerminalOnly(a), q))|, windows, rows, m, others, o)
  {
    var n := |Sort(Earlier(TerminalOnly(a), q))|;
    EarlierRows(a, q);
    EarlierRows(b, q);
    forall i, level: nat, block: nat, w: nat | 0 <= i < n && level < LEVELS && block < 3 && w < |windows|
      ensures SameCell(m, o, i, |windows|, level, block, w)
    {
      CellsFromPrefix(windows, rows, m, others, o, n, i, level, block, w);
    }
  }

  lemma {:induction false} EarlierConcat(a: seq<Payment>, b: seq<Payment>, q: Payment)
    ensures Earlier(a + b, q) == Earlier(a, q) + Earlier(b, q)
  {
    if b == [] {
      assert a + b == a;
    } else {
      assert (a + b)[..|a + b| - 1] == a + b[..|b| - 1];
      EarlierConcat(a, b[..|b| - 1], q);
    }
  }

  lemma {:induction false} TerminalConcat(a: seq<Payment>, b: seq<Payment>)
    ensures TerminalOnly(a + b) == TerminalOnly(a) + TerminalOnly(b)
  {
    if b == [] {
      assert a + b == a;
    } else {
      assert (a + b)[..|a + b| - 1] == a + b[..|b| - 1];
      TerminalConcat(a, b[..|b| - 1]);
    }
  }

  lemma EarlierSnoc(s: seq<Payment>, p: Payment, q: Payment)
    ensures Earlier(s + [p], q) == if Leq(q, p) then Earlier(s, q) else Earlier(s, q) + [p]
  {
    assert (s + [p])[..|s|] == s;
  }

  lemma {:induction false} NoneEarlier(later: seq<Payment>, q: Payment)
    requires AllLater(later, q)
    ensures Earlier(TerminalOnly(later), q) == []
  {
    hide Leq;
    if later != [] {
      var init, p := later[..|later| - 1], later[|later| - 1];
      NoneEarlier(init, q);
      EarlierSnoc(TerminalOnly(init), p, q);
    }
  }

  lemma EarlierOfThree(x: seq<Payment>, y: seq<Payment>, z: seq<Payment>, q: Payment)
    ensures Earlier(TerminalOnly(x + y + z), q) ==
      Earlier(TerminalOnly(x), q) + Earlier(TerminalOnly(y), q) + Earlier(TerminalOnly(z), q)
  {
    hide Earlier, TerminalOnly;
    TerminalConcat(x, y);
    TerminalConcat(x + y, z);
    EarlierConcat(TerminalOnly(x), TerminalOnly(y), q);
    EarlierConcat(TerminalOnly(x + y), TerminalOnly(z), q);
  }

  lemma EarlierInserted(x: seq<Payment>, later: seq<Payment>, y: seq<Payment>, q: Payment)
    requires AllLater(later, q)
    ensures Earlier(TerminalOnly(x + later + y), q) == Earlier(TerminalOnly(x + y), q)
  {
    NoneEarlier(later, q);
    EarlierOfThree(x, later, y, q);
    TerminalConcat(x, y);
    EarlierConcat(TerminalOnly(x), TerminalOnly(y), q);
  }

  /** Payments not before `q`, put anywhere into the input, change no row or cell of those before it. */
  lemma LaterPaymentsUnseen(x: seq<Payment>, later: seq<Payment>, y: seq<Payment>, q: Payment, windows: seq<int>,
                            rows: seq<Row>, m: Matrix, others: seq<Row>, o: Matrix)
    requires AllLater(later, q)
    requires Dataset(x + y, windows, rows, m) && Dataset(x + later + y, windows, others, o)
    ensures SameUpto(|Sort(Earlier(TerminalOnly(x + y), q))|, windows, rows, m, others, o)
  {
    hide Earlier, TerminalOnly, Sort;
    EarlierInserted(x, later, y, q);
    EarlierDecide(x + y, x + later + y, q, windows, rows, m, others, o);
  }
}
