/**
  The sliding-window rate limiter: a bounded table of identities, least recently seen
  first, each with the times of its admitted requests. It is compared with the unbounded
  history of requests.

  An identity stands for the digest of the credential; times are seconds of a monotonic
  clock, as real numbers.
 */
module RateLimiter {
  const WINDOW := 60.0
  const MAX_IDENTITIES := 10_000

  datatype Request = Request(http: bool, path: string, ident: string, now: real)

  /** An ordered dictionary: the keys in order, and their values. */
  datatype Table = Table(order: seq<string>, hits: map<string, seq<real>>)

  const EMPTY := Table([], map[])

  predicate Exempt(r: Request, limit: nat) {
    !r.http || limit == 0 || !("/api/" <= r.path) || r.path == "/api/health"
  }

  // ---------------------------------------------------------------- the table

  function Without(order: seq<string>, ident: string): (rest: seq<string>)
    ensures forall x :: x in rest <==> x in order && x != ident
  {
    if order == [] then []
    else
      var init, last := order[..|order| - 1], order[|order| - 1];
      Without(init, ident) + if last == ident then [] else [last]
  }

  /** The table once the identity has been seen: moved to the end, or seated there. */
  function Seated(t: Table, ident: string, capacity: nat): (s: Table)
    ensures ident in s.hits
  {
    if ident in t.hits then Table(Without(t.order, ident) + [ident], t.hits)
    else if |t.order| >= capacity && t.order != [] then
      Table(t.order[1..] + [ident], (t.hits - {t.order[0]})[ident := []])
    else Table(t.order + [ident], t.hits[ident := []])
  }

  /** Drops the times at the front that are not after the cutoff. */
  function Prune(times: seq<real>, cutoff: real): (rest: seq<real>)
    ensures |rest| <= |times|
  {
    if times != [] && times[0] <= cutoff then Prune(times[1..], cutoff) else times
  }

  function Window(t: Table, ident: string, now: real, capacity: nat): seq<real> {
    Prune(Seated(t, ident, capacity).hits[ident], now - WINDOW)
  }

  predicate Admits(t: Table, ident: string, now: real, limit: nat, capacity: nat) {
    |Window(t, ident, now, capacity)| < limit
  }

  function Handled(t: Table, ident: string, now: real, limit: nat, capacity: nat): Table {
    var s, w := Seated(t, ident, capacity), Window(t, ident, now, capacity);
    s.(hits := s.hits[ident := if Admits(t, ident, now, limit, capacity) then w + [now] else w])
  }

  class Limiter {
    const limit: nat
    const capacity: nat
    var order: seq<string>
    var hits: map<string, seq<real>>

    ghost function Model(): Table
      reads this
    {
      Table(order, hits)
    }

    constructor (limit: int)
      ensures this.limit == (if limit < 0 then 0 else limit) && capacity == MAX_IDENTITIES && Model() == EMPTY
    {
      this.limit, capacity := if limit < 0 then 0 else limit, MAX_IDENTITIES;
      order, hits := [], map[];
    }

    method MoveToEnd(ident: string)
      modifies this`order
      ensures order == Without(old(order), ident) + [ident]
    {
      var rest: seq<string> := [];
      for i := 0 to |order|
        invariant rest == Without(order[..i], ident)
      {
        assert order[..i + 1][..i] == order[..i];
        if order[i] != ident {
          rest := rest + [order[i]];
        }
      }
      assert order[..|order|] == order;
      order := rest + [ident];
    }

    method Seat(ident: string)
      modifies this
      ensures Model() == Seated(old(Model()), ident, capacity)
    {
      if ident in hits {
        MoveToEnd(ident);
        return;
      }
      if |order| >= capacity && order != [] {
        hits := hits - {order[0]};
        order := order[1..];
      }
      hits := hits[ident := []];
      order := order + [ident];
    }

    /** Whether the request goes through; an exempt one leaves the table alone. */
    method Handle(r: Request) returns (admitted: bool)
      modifies this
      ensures Exempt(r, limit) ==> admitted && Model() == old(Model())
      ensures !Exempt(r, limit) ==>
                && admitted == Admits(old(Model()), r.ident, r.now, limit, capacity)
                && Model() == Handled(old(Model()), r.ident, r.now, limit, capacity)
    {
      if !r.http || limit == 0 || !("/api/" <= r.path) || r.path == "/api/health" {
        return true;
      }
      Seat(r.ident);
      ghost var seated := Model();
      var window := hits[r.ident];
      while window != [] && window[0] <= r.now - WINDOW
        invariant Prune(window, r.now - WINDOW) == Prune(seated.hits[r.ident], r.now - WINDOW)
        decreases |window|
      {
        window := window[1..];
      }
      admitted := |window| < limit;
      if admitted {
        window := window + [r.now];
      }
      hits := hits[r.ident := window];
    }
  }

  // ---------------------------------------------------------------- the history

  /** A request that was counted, and the answer it got. */
  datatype Entry = Entry(ident: string, now: real, admitted: bool)

  datatype State = State(table: Table, log: seq<Entry>)

  function Serve(requests: seq<Request>, limit: nat, capacity: nat): State {
    if requests == [] then State(EMPTY, [])
    else
      var s, r := Serve(requests[..|requests| - 1], limit, capacity), requests[|requests| - 1];
      if Exempt(r, limit) then s
      else
        State(Handled(s.table, r.ident, r.now, limit, capacity),
          s.log + [Entry(r.ident, r.now, Admits(s.table, r.ident, r.now, limit, capacity))])
  }

  /** All identities ever seen, by their latest request, the oldest first. */
  function Recency(log: seq<Entry>): seq<string> {
    if log == [] then []
    else Without(Recency(log[..|log| - 1]), log[|log| - 1].ident) + [log[|log| - 1].ident]
  }

  function Last(s: seq<string>, n: nat): (t: seq<string>)
    ensures |t| <= n
  {
    if |s| <= n then s else s[|s| - n..]
  }

  /** The identities a limiter of this capacity remembers after a history. */
  function Remembered(log: seq<Entry>, capacity: nat): seq<string> {
    Last(Recency(log), capacity)
  }

  /** Admitted requests of an identity, since it was last forgotten. */
  function Residency(log: seq<Entry>, ident: string, capacity: nat): seq<real>
    decreases |log|, 0
  {
    if log == [] then []
    else
      var init, e := log[..|log| - 1], log[|log| - 1];
      if e.ident != ident then Residency(init, ident, capacity)
      else Counted(init, ident, capacity) + if e.admitted then [e.now] else []
  }

  /** The admitted requests that count for the next one. */
  function Counted(log: seq<Entry>, ident: string, capacity: nat): seq<real>
    decreases |log|, 1
  {
    if ident in Remembered(log, capacity) then Residency(log, ident, capacity) else []
  }

  /** How many of these times lie after the cutoff. */
  function CountAfter(times: seq<real>, cutoff: real): nat {
    if times == [] then 0 else CountAfter(times[..|times| - 1], cutoff) + if times[|times| - 1] > cutoff then 1 else 0
  }

  ghost predicate Sorted(times: seq<real>) {
    forall i, j :: 0 <= i < j < |times| ==> times[i] <= times[j]
  }

  // ---------------------------------------------------------------- the table is the recent part

  ghost predicate AllDistinct(s: seq<string>) {
    forall i, j :: 0 <= i < j < |s| ==> s[i] != s[j]
  }

  lemma {:induction false} WithoutAbsent(s: seq<string>, ident: string)
    requires ident !in s
    ensures Without(s, ident) == s
  {
    if s != [] {
      WithoutAbsent(s[..|s| - 1], ident);
    }
  }

  lemma {:induction false} WithoutConcat(a: seq<string>, b: seq<string>, ident: string)
    ensures Without(a + b, ident) == Without(a, ident) + Without(b, ident)
  {
    if b == [] {
      assert a + b == a;
    } else {
      var init := b[..|b| - 1];
      assert (a + b)[..|a + b| - 1] == a + init;
      WithoutConcat(a, init, ident);
    }
  }

  lemma {:induction false} WithoutDistinct(s: seq<string>, ident: string)
    requires AllDistinct(s)
    ensures AllDistinct(Without(s, ident)) && |Without(s, ident)| == |s| - if ident in s then 1 else 0
  {
    if s != [] {
      var init := s[..|s| - 1];
      assert s[|s| - 1] !in init;
      WithoutDistinct(init, ident);
      assert s == init + [s[|s| - 1]];
    }
  }

  lemma {:induction false} RecencyDistinct(log: seq<Entry>)
    ensures AllDistinct(Recency(log))
  {
    if log != [] {
      RecencyDistinct(log[..|log| - 1]);
      WithoutDistinct(Recency(log[..|log| - 1]), log[|log| - 1].ident);
    }
  }

  lemma LastOfConcat(a: seq<string>, b: seq<string>, n: nat)
    requires |b| >= n || a == []
    ensures Last(a + b, n) == Last(b, n)
  {
    if a == [] {
      assert a + b == b;
    } else {
      assert (a + b)[|a + b| - n..] == b[|b| - n..];
    }
  }

  lemma SliceSnoc(t: seq<string>, x: string)
    requires t != []
    ensures (t + [x])[1..] == t[1..] + [x]
  {}

  lemma PresentMoves(forgotten: seq<string>, t: seq<string>, n: nat, ident: string)
    requires AllDistinct(t) && ident in t && ident !in forgotten && |t| <= n && (|t| == n || forgotten == [])
    ensures Last(Without(forgotten + t, ident) + [ident], n) == Without(t, ident) + [ident]
  {
    WithoutConcat(forgotten, t, ident);
    WithoutDistinct(t, ident);
    WithoutAbsent(forgotten, ident);
    assert Without(forgotten + t, ident) + [ident] == forgotten + (Without(t, ident) + [ident]);
    LastOfConcat(forgotten, Without(t, ident) + [ident], n);
  }

  lemma AbsentMoves(forgotten: seq<string>, t: seq<string>, n: nat, ident: string)
    requires ident !in t && 1 <= n && |t| <= n && (|t| == n || forgotten == [])
    ensures Last(Without(forgotten + t, ident) + [ident], n) == if |t| == n then t[1..] + [ident] else t + [ident]
  {
    WithoutConcat(forgotten, t, ident);
    WithoutAbsent(t, ident);
    assert Without(forgotten + t, ident) + [ident] == Without(forgotten, ident) + (t + [ident]);
    LastOfConcat(Without(forgotten, ident), t + [ident], n);
    if |t| == n {
      SliceSnoc(t, ident);
    }
  }

  /** Seeing an identity moves the remembered ones on just as the table does. */
  lemma LastMoves(s: seq<string>, n: nat, ident: string)
    requires AllDistinct(s) && n >= 1
    ensures Last(Without(s, ident) + [ident], n) == MovedOn(Last(s, n), n, ident)
  {
    var t := Last(s, n);
    var forgotten := s[..|s| - |t|];
    assert s == forgotten + t;
    if ident in t {
      PresentMoves(forgotten, t, n, ident);
    } else {
      AbsentMoves(forgotten, t, n, ident);
    }
  }

  /** The order of the table after an identity is seen. */
  function MovedOn(order: seq<string>, n: nat, ident: string): seq<string> {
    if ident in order then Without(order, ident) + [ident]
    else if |order| >= n && order != [] then order[1..] + [ident]
    else order + [ident]
  }

  // ---------------------------------------------------------------- pruning

  lemma {:induction false} PruneTwice(times: seq<real>, early: real, late: real)
    requires early <= late
    ensures Prune(Prune(times, early), late) == Prune(times, late)
  {
    if times != [] && times[0] <= early {
      PruneTwice(times[1..], early, late);
    }
  }

  lemma {:induction false} PruneSnoc(times: seq<real>, t: real, cutoff: real)
    ensures Prune(times + [t], cutoff) ==
      if Prune(times, cutoff) == [] then Prune([t], cutoff) else Prune(times, cutoff) + [t]
  {
    if times == [] {
      assert times + [t] == [t];
    } else if times[0] <= cutoff {
      assert (times + [t])[1..] == times[1..] + [t];
      PruneSnoc(times[1..], t, cutoff);
    }
  }

  /** In order, what is left after pruning is what lies after the cutoff. */
  lemma {:induction false} PruneCounts(times: seq<real>, cutoff: real)
    requires Sorted(times)
    ensures |Prune(times, cutoff)| == CountAfter(times, cutoff)
    ensures Prune(times, cutoff) != [] ==> times != [] && times[|times| - 1] > cutoff
  {
    if times != [] {
      var init, last := times[..|times| - 1], times[|times| - 1];
      PruneCounts(init, cutoff);
      PruneSnoc(init, last, cutoff);
      assert init + [last] == times;
    }
  }

  // ---------------------------------------------------------------- the invariant

  /** The clock never goes back. */
  ghost predicate Monotonic(requests: seq<Request>) {
    forall i, j :: 0 <= i < j < |requests| ==> requests[i].now <= requests[j].now
  }

  /** Two lists of times that no cutoff from `from` on can tell apart. */
  ghost predicate SameAfter(a: seq<real>, b: seq<real>, from: real) {
    forall cutoff :: cutoff >= from ==> Prune(a, cutoff) == Prune(b, cutoff)
  }

  /** All entries lie at or before the clock. */
  ghost predicate Before(log: seq<Entry>, clock: real) {
    forall i :: 0 <= i < |log| ==> log[i].now <= clock
  }

  ghost predicate Ordered(log: seq<Entry>) {
    forall i, j :: 0 <= i < j < |log| ==> log[i].now <= log[j].now
  }

  /** The table holds the remembered identities, each with its window of counted requests. */
  ghost predicate Mirrors(t: Table, log: seq<Entry>, capacity: nat, clock: real) {
    && t.order == Remembered(log, capacity)
    && (forall x :: x in t.hits <==> x in t.order)
    && (forall x :: x in t.hits ==> SameAfter(t.hits[x], Residency(log, x, capacity), clock - WINDOW))
  }

  /** In order, and none after the clock. */
  ghost predicate SortedUpTo(times: seq<real>, clock: real) {
    Sorted(times) && (times != [] ==> times[|times| - 1] <= clock)
  }

  lemma SortedSnoc(times: seq<real>, t: real)
    requires SortedUpTo(times, t)
    ensures SortedUpTo(times + [t], t)
  {}

  /** Times up to one moment, with that moment added if it is admitted, seen from a later clock. */
  lemma SortedAdmit(times: seq<real>, now: real, admitted: bool, clock: real)
    requires SortedUpTo(times, now) && now <= clock
    ensures SortedUpTo(times, clock)
    ensures SortedUpTo(times + if admitted then [now] else [], clock)
  {
    if admitted {
      SortedSnoc(times, now);
    } else {
      assert times + [] == times;
    }
  }

  lemma OrderedInit(log: seq<Entry>)
    requires log != [] && Ordered(log)
    ensures Ordered(log[..|log| - 1]) && Before(log[..|log| - 1], log[|log| - 1].now)
  {}

  lemma {:induction false} ResidencySorted(log: seq<Entry>, ident: string, capacity: nat, clock: real)
    requires Before(log, clock) && Ordered(log)
    ensures SortedUpTo(Residency(log, ident, capacity), clock)
  {
    if log != [] {
      var init, e := log[..|log| - 1], log[|log| - 1];
      OrderedInit(log);
      ResidencySorted(init, ident, capacity, e.now);
      if e.ident == ident {
        assert SortedUpTo(Counted(init, ident, capacity), e.now);
        SortedAdmit(Counted(init, ident, capacity), e.now, e.admitted, clock);
      } else {
        SortedAdmit(Residency(init, ident, capacity), e.now, false, clock);
      }
    }
  }

  /** What the window of a request holds, whatever the table: the counted times after the cutoff. */
  lemma WindowIsCounted(t: Table, log: seq<Entry>, ident: string, now: real, capacity: nat, clock: real)
    requires Mirrors(t, log, capacity, clock) && clock <= now && capacity >= 1
    ensures Window(t, ident, now, capacity) == Prune(Counted(log, ident, capacity), now - WINDOW)
  {
    if ident in t.hits {
      assert Prune(t.hits[ident], now - WINDOW) == Prune(Residency(log, ident, capacity), now - WINDOW);
    }
  }

  lemma KeysMirror(t: Table, ident: string, now: real, limit: nat, capacity: nat)
    requires forall x :: x in t.hits <==> x in t.order
    requires AllDistinct(t.order)
    ensures var u := Handled(t, ident, now, limit, capacity);
      && u.order == MovedOn(t.order, capacity, ident)
      && (forall x :: x in u.hits <==> x in u.order)
      && (forall x :: x in u.hits && x != ident ==> x in t.hits && u.hits[x] == t.hits[x])
  {}

  lemma {:induction false} LastDistinct(s: seq<string>, n: nat)
    requires AllDistinct(s)
    ensures AllDistinct(Last(s, n))
  {}

  lemma ResidencySnoc(log: seq<Entry>, e: Entry, x: string, capacity: nat)
    ensures Residency(log + [e], x, capacity) ==
      if x != e.ident then Residency(log, x, capacity)
      else Counted(log, x, capacity) + if e.admitted then [e.now] else []
    ensures Recency(log + [e]) == Without(Recency(log), e.ident) + [e.ident]
  {
    assert (log + [e])[..|log|] == log;
  }

  /** One request keeps the table a mirror of the history. */
  lemma HandledMirrors(t: Table, log: seq<Entry>, ident: string, now: real, limit: nat, capacity: nat, clock: real)
    requires Mirrors(t, log, capacity, clock) && clock <= now && capacity >= 1
    ensures var e := Entry(ident, now, Admits(t, ident, now, limit, capacity));
      Mirrors(Handled(t, ident, now, limit, capacity), log + [e], capacity, now)
  {
    var e := Entry(ident, now, Admits(t, ident, now, limit, capacity));
    var u, after := Handled(t, ident, now, limit, capacity), log + [e];
    RecencyDistinct(log);
    LastDistinct(Recency(log), capacity);
    LastMoves(Recency(log), capacity, ident);
    KeysMirror(t, ident, now, limit, capacity);
    ResidencySnoc(log, e, ident, capacity);
    WindowIsCounted(t, log, ident, now, capacity, clock);
    forall x | x in u.hits ensures SameAfter(u.hits[x], Residency(after, x, capacity), now - WINDOW) {
      ResidencySnoc(log, e, x, capacity);
      if x == ident {
        OwnWindow(Window(t, ident, now, capacity), Counted(log, ident, capacity), now, e.admitted);
      } else {
        assert SameAfter(t.hits[x], Residency(log, x, capacity), clock - WINDOW);
      }
    }
  }

  lemma OwnWindow(window: seq<real>, counted: seq<real>, now: real, admitted: bool)
    requires window == Prune(counted, now - WINDOW)
    ensures SameAfter(if admitted then window + [now] else window,
                      counted + if admitted then [now] else [], now - WINDOW)
  {
    assert counted + [] == counted;
    forall cutoff | cutoff >= now - WINDOW
      ensures Prune(window, cutoff) == Prune(counted, cutoff)
      ensures Prune(window + [now], cutoff) == Prune(counted + [now], cutoff)
    {
      PruneTwice(counted, now - WINDOW, cutoff);
      PruneSnoc(window, now, cutoff);
      PruneSnoc(counted, now, cutoff);
    }
  }

  // ---------------------------------------------------------------- whole runs

  /** Time passing keeps the table a mirror. */
  lemma LaterMirrors(t: Table, log: seq<Entry>, capacity: nat, clock: real, later: real)
    requires Mirrors(t, log, capacity, clock) && clock <= later
    ensures Mirrors(t, log, capacity, later)
  {}

  lemma ServeSnoc(init: seq<Request>, r: Request, limit: nat, capacity: nat)
    ensures var s := Serve(init, limit, capacity);
      Serve(init + [r], limit, capacity) ==
      if Exempt(r, limit) then s
      else State(Handled(s.table, r.ident, r.now, limit, capacity),
        s.log + [Entry(r.ident, r.now, Admits(s.table, r.ident, r.now, limit, capacity))])
  {
    assert (init + [r])[..|init|] == init;
  }

  /** After any requests: the table is the recent part of the history, windows and all. */
  lemma {:induction false} ServeMirrors(requests: seq<Request>, limit: nat, capacity: nat, clock: real)
    requires Monotonic(requests) && capacity >= 1 && forall i :: 0 <= i < |requests| ==> requests[i].now <= clock
    ensures var s := Serve(requests, limit, capacity);
      Mirrors(s.table, s.log, capacity, clock) && Before(s.log, clock) && Ordered(s.log)
  {
    if requests != [] {
      var init, r := requests[..|requests| - 1], requests[|requests| - 1];
      assert requests == init + [r];
      ServeMirrors(init, limit, capacity, r.now);
      ServeSnoc(init, r, limit, capacity);
      var s := Serve(init, limit, capacity);
      if Exempt(r, limit) {
        LaterMirrors(s.table, s.log, capacity, r.now, clock);
      } else {
        HandledMirrors(s.table, s.log, r.ident, r.now, limit, capacity, r.now);
        LaterMirrors(Serve(requests, limit, capacity).table, Serve(requests, limit, capacity).log,
                     capacity, r.now, clock);
      }
    }
  }

  lemma MonotonicInit(init: seq<Request>, r: Request)
    requires Monotonic(init + [r])
    ensures Monotonic(init) && forall i :: 0 <= i < |init| ==> init[i].now <= r.now
  {
    var all := init + [r];
    assert forall i :: 0 <= i < |init| ==> all[i] == init[i];
    assert all[|init|] == r;
  }

  /** Let through exactly when fewer than `limit` of these times lie in the last minute. */
  predicate DecidedBy(times: seq<real>, t: Table, ident: string, now: real, limit: nat, capacity: nat) {
    Admits(t, ident, now, limit, capacity) <==> CountAfter(times, now - WINDOW) < limit
  }

  lemma MirroredDecision(t: Table, log: seq<Entry>, ident: string, now: real, limit: nat, capacity: nat)
    requires Mirrors(t, log, capacity, now) && Before(log, now) && Ordered(log) && capacity >= 1
    ensures DecidedBy(Counted(log, ident, capacity), t, ident, now, limit, capacity)
  {
    WindowIsCounted(t, log, ident, now, capacity, now);
    ResidencySorted(log, ident, capacity, now);
    PruneCounts(Counted(log, ident, capacity), now - WINDOW);
  }

  /**
    Every decision is the one an unbounded history would give: a request is let through
    exactly when fewer than `limit` requests of its identity were admitted in the last
    minute, since the identity was last forgotten.
   */
  lemma DecisionFromHistory(requests: seq<Request>, r: Request, limit: nat, capacity: nat)
    requires Monotonic(requests + [r]) && capacity >= 1
    ensures var s := Serve(requests, limit, capacity);
      DecidedBy(Counted(s.log, r.ident, capacity), s.table, r.ident, r.now, limit, capacity)
  {
    var s := Serve(requests, limit, capacity);
    MonotonicInit(requests, r);
    ServeMirrors(requests, limit, capacity, r.now);
    MirroredDecision(s.table, s.log, r.ident, r.now, limit, capacity);
  }

  // ---------------------------------------------------------------- identities never forgotten

  /** All admitted requests of an identity, ever. */
  function AdmittedTimes(log: seq<Entry>, ident: string): seq<real> {
    if log == [] then []
    else
      var e := log[|log| - 1];
      AdmittedTimes(log[..|log| - 1], ident) + if e.ident == ident && e.admitted then [e.now] else []
  }

  predicate Seen(log: seq<Entry>, ident: string) {
    exists i :: 0 <= i < |log| && log[i].ident == ident
  }

  /** Whenever the identity came back, it was still remembered. */
  ghost predicate NeverForgotten(log: seq<Entry>, ident: string, capacity: nat) {
    forall n :: 0 <= n <= |log| && Seen(log[..n], ident) ==> ident in Remembered(log[..n], capacity)
  }

  lemma {:induction false} UnseenHasNone(log: seq<Entry>, ident: string)
    requires !Seen(log, ident)
    ensures AdmittedTimes(log, ident) == []
  {
    if log != [] {
      var init := log[..|log| - 1];
      assert log[|log| - 1].ident != ident;
      assert forall i :: 0 <= i < |init| ==> init[i] == log[i];
      UnseenHasNone(init, ident);
    }
  }

  lemma NeverForgottenInit(log: seq<Entry>, ident: string, capacity: nat)
    requires log != [] && NeverForgotten(log, ident, capacity)
    ensures NeverForgotten(log[..|log| - 1], ident, capacity)
    ensures Seen(log[..|log| - 1], ident) ==> ident in Remembered(log[..|log| - 1], capacity)
  {
    var init := log[..|log| - 1];
    forall n | 0 <= n <= |init| && Seen(init[..n], ident) ensures ident in Remembered(init[..n], capacity) {
      assert init[..n] == log[..n];
      assert Seen(log[..n], ident);
    }
    assert log[..|log| - 1] == init;
  }

  lemma {:induction false} NothingForgotten(log: seq<Entry>, ident: string, capacity: nat)
    requires NeverForgotten(log, ident, capacity)
    ensures Residency(log, ident, capacity) == AdmittedTimes(log, ident)
    ensures Counted(log, ident, capacity) == AdmittedTimes(log, ident)
  {
    if log != [] {
      var init, e := log[..|log| - 1], log[|log| - 1];
      assert log == init + [e];
      NeverForgottenInit(log, ident, capacity);
      NothingForgotten(init, ident, capacity);
      ResidencySnoc(init, e, ident, capacity);
    }
    assert log[..|log|] == log;
    if !Seen(log, ident) {
      UnseenHasNone(log, ident);
    }
  }

  /** Without forgetting, the decision is the unbounded one on the whole history. */
  lemma DecisionExact(requests: seq<Request>, r: Request, limit: nat, capacity: nat)
    requires Monotonic(requests + [r]) && capacity >= 1
    requires NeverForgotten(Serve(requests, limit, capacity).log, r.ident, capacity)
    ensures var s := Serve(requests, limit, capacity);
      DecidedBy(AdmittedTimes(s.log, r.ident), s.table, r.ident, r.now, limit, capacity)
  {
    DecisionFromHistory(requests, r, limit, capacity);
    NothingForgotten(Serve(requests, limit, capacity).log, r.ident, capacity);
  }

  // ---------------------------------------------------------------- forgetting

  /** A forgotten identity starts afresh: its next request goes through, whatever it did before. */
  lemma ForgottenStartsAfresh(requests: seq<Request>, r: Request, limit: nat, capacity: nat)
    requires Monotonic(requests + [r]) && capacity >= 1 && limit >= 1
    requires r.ident !in Remembered(Serve(requests, limit, capacity).log, capacity)
    ensures Admits(Serve(requests, limit, capacity).table, r.ident, r.now, limit, capacity)
  {
    DecisionFromHistory(requests, r, limit, capacity);
  }
}
