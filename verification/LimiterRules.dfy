/**
  The limiter's decision, said of the requests served before and nothing else: which are
  counted, which still count, and how many of those a request may find.
 */
module LimiterRules {
  import opened RateLimiter

  // ---------------------------------------------------------------- who is remembered

  function Idents(entries: seq<Entry>): set<string> {
    set e | e in entries :: e.ident
  }

  /** Between some entry of the identity and entry `k`, fewer than `n` identities came. */
  ghost predicate Recalls(log: seq<Entry>, ident: string, k: nat, n: nat)
    requires k <= |log|
  {
    exists p :: 0 <= p < k && log[p].ident == ident && |Idents(log[p + 1..k])| < n
  }

  /** Those who came after the identity last did. */
  function Behind(log: seq<Entry>, ident: string): set<string> {
    if log == [] || log[|log| - 1].ident == ident then {}
    else Behind(log[..|log| - 1], ident) + {log[|log| - 1].ident}
  }

  /** What stands after the last occurrence. */
  function TailAfter(s: seq<string>, x: string): seq<string> {
    if s == [] || s[|s| - 1] == x then [] else TailAfter(s[..|s| - 1], x) + [s[|s| - 1]]
  }

  lemma {:induction false} TailSplits(s: seq<string>, x: string)
    requires x in s
    ensures var t := TailAfter(s, x); |t| < |s| && s[|s| - 1 - |t|] == x && s[|s| - |t|..] == t
  {
    if s[|s| - 1] != x {
      TailSplits(s[..|s| - 1], x);
    }
  }

  lemma TailDecidesLast(s: seq<string>, x: string, n: nat)
    requires AllDistinct(s) && x in s
    ensures x in Last(s, n) <==> |TailAfter(s, x)| < n
  {
    TailSplits(s, x);
    var at, from := |s| - 1 - |TailAfter(s, x)|, |s| - n;
    forall i | 0 <= i < |s| && s[i] == x ensures i == at {}
    if from > 0 {
      assert Last(s, n) == s[from..];
      if x in s[from..] {
        var i :| 0 <= i < n && s[from..][i] == x;
        assert s[from + i] == x;
      }
      if at >= from {
        assert s[from..][at - from] == x;
      }
    }
  }

  lemma {:induction false} DistinctSize(s: seq<string>)
    requires AllDistinct(s)
    ensures |set x | x in s| == |s|
  {
    if s != [] {
      var init, last := s[..|s| - 1], s[|s| - 1];
      assert s == init + [last];
      assert last !in init;
      DistinctSize(init);
      assert (set x | x in s) == (set x | x in init) + {last};
    }
  }

  lemma {:induction false} TailWithout(s: seq<string>, x: string, y: string)
    requires x != y && x in s
    ensures forall z :: z in TailAfter(Without(s, y) + [y], x) <==> z in TailAfter(s, x) || z == y
  {
    assert (Without(s, y) + [y])[..|Without(s, y)|] == Without(s, y);
    TailKept(s, x, y);
  }

  lemma {:induction false} TailKept(s: seq<string>, x: string, y: string)
    requires x != y
    ensures forall z :: z in TailAfter(Without(s, y), x) <==> z in TailAfter(s, x) && z != y
  {
    if s != [] {
      var init, last := s[..|s| - 1], s[|s| - 1];
      TailKept(init, x, y);
      if last == y {
        assert Without(s, y) == Without(init, y);
      } else {
        assert (Without(init, y) + [last])[..|Without(init, y)|] == Without(init, y);
      }
    }
  }

  lemma SeenSnoc(init: seq<Entry>, e: Entry, ident: string)
    ensures Seen(init + [e], ident) <==> Seen(init, ident) || e.ident == ident
  {
    assert (init + [e])[|init|] == e;
    assert forall p :: 0 <= p < |init| ==> (init + [e])[p] == init[p];
  }

  lemma {:induction false} RecencyExactly(log: seq<Entry>, ident: string)
    ensures ident in Recency(log) <==> Seen(log, ident)
    ensures Seen(log, ident) ==> forall z :: z in TailAfter(Recency(log), ident) <==> z in Behind(log, ident)
  {
    if log != [] {
      var init, e := log[..|log| - 1], log[|log| - 1];
      assert log == init + [e];
      RecencyExactly(init, ident);
      SeenSnoc(init, e, ident);
      if e.ident != ident && Seen(init, ident) {
        TailWithout(Recency(init), ident, e.ident);
      }
    }
  }

  lemma RememberedByBehind(log: seq<Entry>, ident: string, n: nat)
    ensures ident in Remembered(log, n) <==> Seen(log, ident) && |Behind(log, ident)| < n
  {
    var order := Recency(log);
    RecencyExactly(log, ident);
    RecencyDistinct(log);
    if ident in order {
      TailDecidesLast(order, ident, n);
      TailSplits(order, ident);
      var tail := TailAfter(order, ident);
      assert AllDistinct(tail) by {
        forall i, j | 0 <= i < j < |tail| ensures tail[i] != tail[j] {
          assert order[|order| - |tail|..][i] != order[|order| - |tail|..][j];
        }
      }
      DistinctSize(tail);
      assert (set z | z in tail) == Behind(log, ident);
    } else {
      assert ident !in Last(order, n);
    }
  }

  lemma {:induction false} BehindIsLeast(log: seq<Entry>, ident: string, p: nat)
    requires p < |log| && log[p].ident == ident
    ensures Behind(log, ident) <= Idents(log[p + 1..])
  {
    var init, e := log[..|log| - 1], log[|log| - 1];
    if e.ident != ident {
      BehindIsLeast(init, ident, p);
      assert log[p + 1..] == init[p + 1..] + [e];
    }
  }

  lemma {:induction false} BehindIsReached(log: seq<Entry>, ident: string) returns (p: nat)
    requires Seen(log, ident)
    ensures p < |log| && log[p].ident == ident && Behind(log, ident) == Idents(log[p + 1..])
  {
    var init, e := log[..|log| - 1], log[|log| - 1];
    if e.ident == ident {
      p := |log| - 1;
    } else {
      assert log == init + [e];
      SeenSnoc(init, e, ident);
      p := BehindIsReached(init, ident);
      assert log[p + 1..] == init[p + 1..] + [e];
    }
  }

  lemma IdentsMonotone(a: set<string>, b: set<string>)
    requires a <= b
    ensures |a| <= |b|
  {
    assert b == a + (b - a);
  }

  /** An identity is remembered exactly while fewer others than the table seats came since it last did. */
  lemma RememberedExactly(log: seq<Entry>, ident: string, n: nat)
    ensures ident in Remembered(log, n) <==> Recalls(log, ident, |log|, n)
  {
    RememberedByBehind(log, ident, n);
    assert log[..|log|] == log;
    if Seen(log, ident) {
      var p := BehindIsReached(log, ident);
      forall q | 0 <= q < |log| && log[q].ident == ident
        ensures |Behind(log, ident)| <= |Idents(log[q + 1..|log|])|
      {
        BehindIsLeast(log, ident, q);
        assert log[q + 1..|log|] == log[q + 1..];
        IdentsMonotone(Behind(log, ident), Idents(log[q + 1..]));
      }
      assert log[p + 1..|log|] == log[p + 1..];
    }
  }

  // ---------------------------------------------------------------- what still counts

  /** Whenever the identity came back after entry `j`, it was remembered. */
  ghost predicate KeptSince(log: seq<Entry>, j: nat, n: nat) {
    forall k :: j < k < |log| && log[k].ident == log[j].ident ==> Recalls(log, log[j].ident, k, n)
  }

  predicate CountsAt(log: seq<Entry>, ident: string, cutoff: real, j: nat) {
    j < |log| && log[j].ident == ident && log[j].admitted && log[j].now > cutoff
  }

  /** The entries of the identity admitted after the cutoff, and not forgotten since. */
  ghost function Resident(log: seq<Entry>, ident: string, n: nat, cutoff: real): set<nat> {
    set j: nat | j < |log| && CountsAt(log, ident, cutoff, j) && KeptSince(log, j, n)
  }

  /** Those that count for the identity's next request. */
  ghost function Counting(log: seq<Entry>, ident: string, n: nat, cutoff: real): set<nat> {
    if Recalls(log, ident, |log|, n) then Resident(log, ident, n, cutoff) else {}
  }

  lemma RecallsBefore(init: seq<Entry>, e: Entry, ident: string, k: nat, n: nat)
    requires k <= |init|
    ensures Recalls(init + [e], ident, k, n) <==> Recalls(init, ident, k, n)
  {
    var log := init + [e];
    assert forall p :: 0 <= p < k ==> log[p] == init[p] && log[p + 1..k] == init[p + 1..k];
  }

  lemma KeptSnoc(init: seq<Entry>, e: Entry, j: nat, n: nat)
    requires j < |init|
    ensures KeptSince(init + [e], j, n) <==>
      KeptSince(init, j, n) && (e.ident == init[j].ident ==> Recalls(init, e.ident, |init|, n))
  {
    hide Recalls;
    var log, ident := init + [e], init[j].ident;
    forall k | j < k <= |init| ensures Recalls(log, ident, k, n) <==> Recalls(init, ident, k, n) {
      RecallsBefore(init, e, ident, k, n);
    }
    assert log[|init|] == e && forall k :: 0 <= k < |init| ==> log[k] == init[k];
  }

  lemma ResidentAt(init: seq<Entry>, e: Entry, ident: string, n: nat, cutoff: real, j: nat)
    requires j < |init|
    ensures j in Resident(init + [e], ident, n, cutoff) <==>
      j in Resident(init, ident, n, cutoff) && (e.ident == ident ==> Recalls(init, ident, |init|, n))
  {
    hide KeptSince, Recalls;
    KeptSnoc(init, e, j, n);
    assert (init + [e])[j] == init[j];
  }

  lemma ResidentSnoc(init: seq<Entry>, e: Entry, ident: string, n: nat, cutoff: real)
    ensures var before, after := Resident(init, ident, n, cutoff), Resident(init + [e], ident, n, cutoff);
      |after| ==
        if e.ident != ident then |before|
        else |Counting(init, ident, n, cutoff)| + if e.admitted && e.now > cutoff then 1 else 0
  {
    hide KeptSince, Recalls;
    var log, m := init + [e], |init|;
    var before, after := Resident(init, ident, n, cutoff), Resident(log, ident, n, cutoff);
    NothingLater(log, n);
    assert log[m] == e;
    assert m in after <==> CountsAt(log, ident, cutoff, m);
    forall j: nat | j < m ensures j in after <==> j in before && (e.ident == ident ==> Recalls(init, ident, m, n)) {
      ResidentAt(init, e, ident, n, cutoff, j);
    }
    var kept := if e.ident == ident then Counting(init, ident, n, cutoff) else before;
    assert forall j: nat :: j in before ==> j < m;
    assert forall j: nat :: j in after ==> j <= m;
    assert after == kept + if m in after then {m} else {};
  }

  lemma NothingLater(log: seq<Entry>, n: nat)
    requires log != []
    ensures KeptSince(log, |log| - 1, n)
  {}

  lemma CountAfterSnoc(times: seq<real>, e: Entry, cutoff: real)
    ensures CountAfter(times + if e.admitted then [e.now] else [], cutoff) ==
      CountAfter(times, cutoff) + if e.admitted && e.now > cutoff then 1 else 0
  {
    assert times + [] == times;
    assert (times + [e.now])[..|times|] == times;
  }

  /** The times that count are those of the entries that count. */
  lemma {:induction false} ResidencyExactly(log: seq<Entry>, ident: string, n: nat, cutoff: real)
    ensures CountAfter(Residency(log, ident, n), cutoff) == |Resident(log, ident, n, cutoff)|
    ensures CountAfter(Counted(log, ident, n), cutoff) == |Counting(log, ident, n, cutoff)|
  {
    RememberedExactly(log, ident, n);
    if log != [] {
      hide Resident, Counting, Recalls, Remembered;
      var init, e := log[..|log| - 1], log[|log| - 1];
      assert log == init + [e];
      ResidencyExactly(init, ident, n, cutoff);
      ResidencySnoc(init, e, ident, n);
      ResidentSnoc(init, e, ident, n, cutoff);
      CountAfterSnoc(Counted(init, ident, n), e, cutoff);
    }
  }

  // ---------------------------------------------------------------- decisions

  /** The limiter looks at the web requests under /api/, except the health check. */
  predicate Limited(r: Request, limit: nat) {
    r.http && limit > 0 && |r.path| >= 5 && r.path[..5] == "/api/" && r.path != "/api/health"
  }

  lemma PathPrefix(path: string)
    ensures "/api/" <= path <==> |path| >= 5 && path[..5] == "/api/"
  {}

  /**
    One more request: it goes through unseen if it is not looked at, and otherwise is admitted
    exactly when fewer than `limit` entries of its identity in the last sixty seconds still count.
   */
  lemma RequestExactly(requests: seq<Request>, r: Request, limit: nat, capacity: nat)
    requires Monotonic(requests + [r]) && capacity >= 1
    ensures var s, after := Serve(requests, limit, capacity), Serve(requests + [r], limit, capacity);
      if Limited(r, limit) then
        var admitted := |Counting(s.log, r.ident, capacity, r.now - 60.0)| < limit;
        after.log == s.log + [Entry(r.ident, r.now, admitted)]
      else after == s
  {
    PathPrefix(r.path);
    ServeSnoc(requests, r, limit, capacity);
    DecisionFromHistory(requests, r, limit, capacity);
    ResidencyExactly(Serve(requests, limit, capacity).log, r.ident, capacity, r.now - 60.0);
  }
}
