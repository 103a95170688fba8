/**
  The rows of the training set: the terminal payments, sorted by epoch and reference.
  The sort is stable, as the library's is.
 */
module TrainingRows {
  import opened RollingFeatures

  datatype Payment = Payment(row: Row, ref: string, terminal: bool)

  function TerminalOnly(payments: seq<Payment>): seq<Payment> {
    if payments == [] then []
    else
      var init, p := TerminalOnly(payments[..|payments| - 1]), payments[|payments| - 1];
      if p.terminal then init + [p] else init
  }

  /** Text order, character by character. */
  predicate TextLeq(a: string, b: string) {
    if a == "" then true
    else if b == "" then false
    else if a[0] != b[0] then a[0] < b[0]
    else TextLeq(a[1..], b[1..])
  }

  predicate Leq(p: Payment, q: Payment) {
    p.row.epoch < q.row.epoch || (p.row.epoch == q.row.epoch && TextLeq(p.ref, q.ref))
  }

  /** Inserts after everything that is not greater. */
  function Insert(sorted: seq<Payment>, p: Payment): seq<Payment> {
    if sorted == [] || Leq(sorted[|sorted| - 1], p) then sorted + [p]
    else Insert(sorted[..|sorted| - 1], p) + [sorted[|sorted| - 1]]
  }

  function Sort(payments: seq<Payment>): seq<Payment> {
    if payments == [] then [] else Insert(Sort(payments[..|payments| - 1]), payments[|payments| - 1])
  }

  function RowsOf(payments: seq<Payment>): (rows: seq<Row>)
    ensures |rows| == |payments| && forall i :: 0 <= i < |rows| ==> rows[i] == payments[i].row
  {
    seq(|payments|, i requires 0 <= i < |payments| => payments[i].row)
  }

  // ---------------------------------------------------------------- the sort

  lemma {:induction false} TextTotal(a: string, b: string)
    ensures TextLeq(a, b) || TextLeq(b, a)
  {
    if a != "" && b != "" && a[0] == b[0] {
      TextTotal(a[1..], b[1..]);
    }
  }

  lemma {:induction false} TextTransitive(a: string, b: string, c: string)
    requires TextLeq(a, b) && TextLeq(b, c)
    ensures TextLeq(a, c)
  {
    if a != "" && a[0] == b[0] == c[0] {
      TextTransitive(a[1..], b[1..], c[1..]);
    }
  }

  lemma LeqTransitive(p: Payment, q: Payment, r: Payment)
    requires Leq(p, q) && Leq(q, r)
    ensures Leq(p, r)
  {
    if p.row.epoch == q.row.epoch == r.row.epoch {
      TextTransitive(p.ref, q.ref, r.ref);
    }
  }

  /** In order, and none greater than the bound. */
  ghost predicate Ordered(s: seq<Payment>) {
    forall i, j :: 0 <= i < j < |s| ==> Leq(s[i], s[j])
  }

  lemma {:induction false} InsertOrdered(sorted: seq<Payment>, p: Payment)
    requires Ordered(sorted)
    ensures Ordered(Insert(sorted, p)) && multiset(Insert(sorted, p)) == multiset(sorted) + multiset{p}
  {
    if sorted != [] {
      var init, last := sorted[..|sorted| - 1], sorted[|sorted| - 1];
      assert sorted == init + [last];
      if Leq(last, p) {
        forall i | 0 <= i < |init| ensures Leq(init[i], p) {
          LeqTransitive(init[i], last, p);
        }
      } else {
        TextTotal(last.ref, p.ref);
        InsertOrdered(init, p);
        forall x | x in Insert(init, p) ensures Leq(x, last) {
          assert x in multiset(Insert(init, p));
        }
      }
    }
  }

  lemma {:induction false} SortOrders(payments: seq<Payment>)
    ensures Ordered(Sort(payments)) && multiset(Sort(payments)) == multiset(payments)
  {
    if payments != [] {
      SortOrders(payments[..|payments| - 1]);
      InsertOrdered(Sort(payments[..|payments| - 1]), payments[|payments| - 1]);
      assert payments == payments[..|payments| - 1] + [payments[|payments| - 1]];
    }
  }

  /** The payments with one epoch and reference, in the order they are listed. */
  function Tied(payments: seq<Payment>, epoch: int, ref: string): seq<Payment> {
    if payments == [] then []
    else
      var init, p := Tied(payments[..|payments| - 1], epoch, ref), payments[|payments| - 1];
      if p.row.epoch == epoch && p.ref == ref then init + [p] else init
  }

  lemma TiedSnoc(s: seq<Payment>, p: Payment, epoch: int, ref: string)
    ensures Tied(s + [p], epoch, ref) ==
      if p.row.epoch == epoch && p.ref == ref then Tied(s, epoch, ref) + [p] else Tied(s, epoch, ref)
  {
    assert (s + [p])[..|s|] == s;
  }

  lemma {:induction false} TextReflexive(a: string)
    ensures TextLeq(a, a)
  {
    if a != "" {
      TextReflexive(a[1..]);
    }
  }

  lemma {:induction false} InsertStable(sorted: seq<Payment>, p: Payment, epoch: int, ref: string)
    ensures Tied(Insert(sorted, p), epoch, ref) == Tied(sorted + [p], epoch, ref)
  {
    if sorted != [] && !Leq(sorted[|sorted| - 1], p) {
      var init, last := sorted[..|sorted| - 1], sorted[|sorted| - 1];
      assert sorted == init + [last];
      TextReflexive(ref);
      InsertStable(init, p, epoch, ref);
      TiedSnoc(Insert(init, p), last, epoch, ref);
      TiedSnoc(init, p, epoch, ref);
      TiedSnoc(init, last, epoch, ref);
      TiedSnoc(sorted, p, epoch, ref);
    }
  }

  /** Payments with the same epoch and reference keep the order they came in. */
  lemma {:induction false} SortStable(payments: seq<Payment>, epoch: int, ref: string)
    ensures Tied(Sort(payments), epoch, ref) == Tied(payments, epoch, ref)
  {
    if payments != [] {
      var init, p := payments[..|payments| - 1], payments[|payments| - 1];
      assert payments == init + [p];
      SortStable(init, epoch, ref);
      InsertStable(Sort(init), p, epoch, ref);
      TiedSnoc(Sort(init), p, epoch, ref);
      TiedSnoc(init, p, epoch, ref);
    }
  }

  // ---------------------------------------------------------------- the data set

  /** The rows are the terminal payments in order, and each cell counts what its row may see. */
  ghost predicate Dataset(payments: seq<Payment>, windows: seq<int>, rows: seq<Row>, m: Matrix) {
    && rows == RowsOf(Sort(TerminalOnly(payments))) && Shaped(m, rows, windows)
    && forall level: nat, i: nat :: level < LEVELS && i < |rows| ==> RowDone(m, rows, windows, i, level)
  }

  method BuildDataset(payments: seq<Payment>, windows: seq<int>) returns (rows: seq<Row>, X: array2<real>)
    ensures fresh(X) && Sized(X, rows, windows) && Dataset(payments, windows, rows, Cells(X))
  {
    var sorted := Sort(TerminalOnly(payments));
    rows := RowsOf(sorted);
    SortOrders(TerminalOnly(payments));
    assert Chronological(rows) by {
      forall i, j | 0 <= i < j < |rows| ensures rows[i].epoch <= rows[j].epoch {
        assert Leq(sorted[i], sorted[j]);
      }
    }
    X := BuildRolling(rows, windows);
  }
}
