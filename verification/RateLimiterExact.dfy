/**
  What forgetting identities costs the limiter: exactly when a decision differs from the
  one on the whole history, exactly when the per-identity limit fails, and a run on which
  it does for every limit and every capacity, the program's own included.
 */
module RateLimiterExact {
  import opened RateLimiter
  import opened RateLimiterMinutes

  // ---------------------------------------------------------------- what was forgotten

  lemma AdmittedSnoc(log: seq<Entry>, e: Entry, ident: string)
    ensures AdmittedTimes(log + [e], ident) ==
      AdmittedTimes(log, ident) + if e.ident == ident && e.admitted then [e.now] else []
  {
    assert (log + [e])[..|log|] == log;
  }

  lemma RecencySnoc(log: seq<Entry>, e: Entry)
    ensures Recency(log + [e]) == Without(Recency(log), e.ident) + [e.ident]
  {
    assert (log + [e])[..|log|] == log;
  }

  /** `b` is what `a` ends with. */
  predicate EndsWith(a: seq<real>, b: seq<real>) {
    |b| <= |a| && a[|a| - |b|..] == b
  }

  lemma {:induction false} CountedIsLast(log: seq<Entry>, ident: string, capacity: nat)
    ensures EndsWith(AdmittedTimes(log, ident), Residency(log, ident, capacity))
    ensures EndsWith(AdmittedTimes(log, ident), Counted(log, ident, capacity))
  {
    hide Recency, Remembered;
    if log != [] {
      var init, e := log[..|log| - 1], log[|log| - 1];
      assert log == init + [e];
      CountedIsLast(init, ident, capacity);
      AdmittedSnoc(init, e, ident);
      ResidencySnoc(init, e, ident, capacity);
    }
  }

  /** The admitted requests of an identity that no longer count, because it was forgotten since. */
  function Lost(log: seq<Entry>, ident: string, capacity: nat): seq<real> {
    CountedIsLast(log, ident, capacity);
    AdmittedTimes(log, ident)[..|AdmittedTimes(log, ident)| - |Counted(log, ident, capacity)|]
  }

  lemma {:induction false} CountConcat(a: seq<real>, b: seq<real>, cutoff: real)
    ensures CountAfter(a + b, cutoff) == CountAfter(a, cutoff) + CountAfter(b, cutoff)
  {
    if b == [] {
      assert a + b == a;
    } else {
      assert (a + b)[..|a + b| - 1] == a + b[..|b| - 1];
      CountConcat(a, b[..|b| - 1], cutoff);
    }
  }

  lemma LostAndCounted(log: seq<Entry>, ident: string, capacity: nat, cutoff: real)
    ensures AdmittedTimes(log, ident) == Lost(log, ident, capacity) + Counted(log, ident, capacity)
    ensures CountAfter(AdmittedTimes(log, ident), cutoff) ==
      CountAfter(Lost(log, ident, capacity), cutoff) + CountAfter(Counted(log, ident, capacity), cutoff)
  {
    CountedIsLast(log, ident, capacity);
    CountConcat(Lost(log, ident, capacity), Counted(log, ident, capacity), cutoff);
  }

  // ---------------------------------------------------------------- decisions

  /** What still counts is below the limit, and what was forgotten would have reached it. */
  predicate Slips(log: seq<Entry>, ident: string, now: real, limit: nat, capacity: nat) {
    var lost, counted := Lost(log, ident, capacity), Counted(log, ident, capacity);
    CountAfter(counted, now - WINDOW) < limit <= CountAfter(lost, now - WINDOW) + CountAfter(counted, now - WINDOW)
  }

  /** The decision is the one on the whole history if and only if it does not slip. */
  predicate SlipsOrAgrees(t: Table, log: seq<Entry>, ident: string, now: real, limit: nat, capacity: nat) {
    DecidedBy(AdmittedTimes(log, ident), t, ident, now, limit, capacity) <==> !Slips(log, ident, now, limit, capacity)
  }

  lemma CountedDecides(t: Table, log: seq<Entry>, ident: string, now: real, limit: nat, capacity: nat)
    requires DecidedBy(Counted(log, ident, capacity), t, ident, now, limit, capacity)
    ensures SlipsOrAgrees(t, log, ident, now, limit, capacity)
  {
    LostAndCounted(log, ident, capacity, now - WINDOW);
  }

  lemma DecisionExactly(requests: seq<Request>, r: Request, limit: nat, capacity: nat)
    requires Monotonic(requests + [r]) && capacity >= 1
    ensures var s := Serve(requests, limit, capacity); SlipsOrAgrees(s.table, s.log, r.ident, r.now, limit, capacity)
  {
    var s := Serve(requests, limit, capacity);
    DecisionFromHistory(requests, r, limit, capacity);
    CountedDecides(s.table, s.log, r.ident, r.now, limit, capacity);
  }

  // ---------------------------------------------------------------- the limit over a run

  /** No minute holds more of these times than the limit. */
  ghost predicate Bounded(times: seq<real>, limit: nat) {
    forall end :: InMinute(times, end) <= limit
  }

  lemma {:induction false} MinuteOfLast(times: seq<real>, now: real)
    requires SortedUpTo(times, now)
    ensures InMinute(times, now) == CountAfter(times, now - WINDOW)
  {
    if times != [] {
      MinuteOfLast(times[..|times| - 1], now);
    }
  }

  lemma BoundedInit(times: seq<real>, now: real, limit: nat)
    requires Bounded(times + [now], limit)
    ensures Bounded(times, limit)
  {
    forall end ensures InMinute(times, end) <= limit {
      MinuteSnoc(times, now, end);
      assert InMinute(times + [now], end) <= limit;
    }
  }

  /** Admitting one more keeps every minute within the limit exactly if the last one had room. */
  lemma AdmittingExactly(times: seq<real>, now: real, limit: nat)
    requires SortedUpTo(times, now) && Bounded(times, limit)
    ensures Bounded(times + [now], limit) <==> CountAfter(times, now - WINDOW) < limit
  {
    if Bounded(times + [now], limit) {
      MinuteOfLast(times, now);
      MinuteSnoc(times, now, now);
      assert InMinute(times + [now], now) <= limit;
    }
    if CountAfter(times, now - WINDOW) < limit {
      forall end ensures InMinute(times + [now], end) <= limit {
        assert InMinute(times, end) <= limit;
        MinuteStep(times, now, limit, true, end);
      }
    }
  }

  lemma {:induction false} AdmittedSorted(log: seq<Entry>, ident: string, clock: real)
    requires Before(log, clock) && Ordered(log)
    ensures SortedUpTo(AdmittedTimes(log, ident), clock)
  {
    if log != [] {
      var init, e := log[..|log| - 1], log[|log| - 1];
      OrderedInit(log);
      AdmittedSorted(init, ident, e.now);
      SortedAdmit(AdmittedTimes(init, ident), e.now, e.ident == ident && e.admitted, clock);
    }
  }

  /** No counted request of the identity slips. */
  predicate NeverSlips(requests: seq<Request>, ident: string, limit: nat, capacity: nat) {
    requests != [] ==>
      var init, r := requests[..|requests| - 1], requests[|requests| - 1];
      && NeverSlips(init, ident, limit, capacity)
      && (!Exempt(r, limit) && r.ident == ident ==>
            !Slips(Serve(init, limit, capacity).log, ident, r.now, limit, capacity))
  }

  /** One more entry keeps its identity's minutes within the limit exactly if its decision does not slip. */
  ghost predicate SlipsOrKeeps(log: seq<Entry>, e: Entry, limit: nat, capacity: nat) {
    Bounded(AdmittedTimes(log + [e], e.ident), limit) <==> !Slips(log, e.ident, e.now, limit, capacity)
  }

  /** The same from the times alone: those lost, those counted, and the decision made on the latter. */
  lemma AdmitExactly(lost: seq<real>, counted: seq<real>, now: real, admitted: bool, limit: nat)
    requires SortedUpTo(lost + counted, now) && Bounded(lost + counted, limit)
    requires admitted <==> CountAfter(counted, now - WINDOW) < limit
    ensures Bounded(lost + counted + if admitted then [now] else [], limit) <==>
      !(CountAfter(counted, now - WINDOW) < limit
        <= CountAfter(lost, now - WINDOW) + CountAfter(counted, now - WINDOW))
  {
    CountConcat(lost, counted, now - WINDOW);
    if admitted {
      AdmittingExactly(lost + counted, now, limit);
    } else {
      assert lost + counted + [] == lost + counted;
    }
  }

  lemma EntryExactly(log: seq<Entry>, e: Entry, limit: nat, capacity: nat)
    requires Before(log, e.now) && Ordered(log) && Bounded(AdmittedTimes(log, e.ident), limit)
    requires e.admitted <==> CountAfter(Counted(log, e.ident, capacity), e.now - WINDOW) < limit
    ensures SlipsOrKeeps(log, e, limit, capacity)
  {
    hide Recency, Residency, InMinute, CountAfter;
    AdmittedSorted(log, e.ident, e.now);
    AdmittedSnoc(log, e, e.ident);
    LostAndCounted(log, e.ident, capacity, e.now - WINDOW);
    AdmitExactly(Lost(log, e.ident, capacity), Counted(log, e.ident, capacity), e.now, e.admitted, limit);
  }

  lemma ServedInOrder(init: seq<Request>, r: Request, limit: nat, capacity: nat)
    requires Monotonic(init + [r]) && capacity >= 1
    ensures var log := Serve(init, limit, capacity).log; Before(log, r.now) && Ordered(log)
  {
    MonotonicInit(init, r);
    ServeMirrors(init, limit, capacity, r.now);
  }

  lemma RequestExactly(init: seq<Request>, r: Request, limit: nat, capacity: nat)
    requires Monotonic(init + [r]) && capacity >= 1
    requires Bounded(AdmittedTimes(Serve(init, limit, capacity).log, r.ident), limit)
    ensures var s := Serve(init, limit, capacity); SlipsOrKeeps(s.log, EntryOf(s, r, limit, capacity), limit, capacity)
  {
    hide Serve, Recency, AdmittedTimes, Counted, Lost, Slips, Bounded, Handled, Admits;
    var s := Serve(init, limit, capacity);
    ServedInOrder(init, r, limit, capacity);
    EntryDecided(init, r, limit, capacity);
    EntryExactly(s.log, EntryOf(s, r, limit, capacity), limit, capacity);
  }

  /** An identity's admissions of a run, minute by minute. */
  ghost predicate KeepsLimit(requests: seq<Request>, ident: string, limit: nat, capacity: nat) {
    Bounded(AdmittedTimes(Serve(requests, limit, capacity).log, ident), limit)
  }

  lemma EntryInit(log: seq<Entry>, e: Entry, ident: string, limit: nat)
    requires Bounded(AdmittedTimes(log + [e], ident), limit)
    ensures Bounded(AdmittedTimes(log, ident), limit)
  {
    hide Recency, InMinute;
    AdmittedSnoc(log, e, ident);
    if e.ident == ident && e.admitted {
      BoundedInit(AdmittedTimes(log, ident), e.now, limit);
    } else {
      assert AdmittedTimes(log, ident) + [] == AdmittedTimes(log, ident);
    }
  }

  lemma KeepsLimitInit(init: seq<Request>, r: Request, ident: string, limit: nat, capacity: nat)
    requires KeepsLimit(init + [r], ident, limit, capacity)
    ensures KeepsLimit(init, ident, limit, capacity)
  {
    hide Serve, AdmittedTimes, Bounded, Exempt, Handled, Admits;
    LogSnoc(init, r, limit, capacity);
    if !Exempt(r, limit) {
      var s := Serve(init, limit, capacity);
      EntryInit(s.log, EntryOf(s, r, limit, capacity), ident, limit);
    }
  }

  lemma OtherRequest(init: seq<Request>, r: Request, ident: string, limit: nat, capacity: nat)
    requires Exempt(r, limit) || r.ident != ident
    ensures AdmittedTimes(Serve(init + [r], limit, capacity).log, ident) ==
      AdmittedTimes(Serve(init, limit, capacity).log, ident)
  {
    hide Handled, Admits;
    var s := Serve(init, limit, capacity);
    LogSnoc(init, r, limit, capacity);
    AdmittedSnoc(s.log, EntryOf(s, r, limit, capacity), ident);
  }

  lemma NothingExceeds(ident: string, limit: nat, capacity: nat)
    ensures KeepsLimit([], ident, limit, capacity)
  {}

  /**
    Over a whole run no minute of an identity holds more admissions than the limit if and
    only if none of its requests slips.
   */
  lemma {:induction false} LimitExactly(requests: seq<Request>, ident: string, limit: nat, capacity: nat)
    requires Monotonic(requests) && capacity >= 1
    ensures KeepsLimit(requests, ident, limit, capacity) <==> NeverSlips(requests, ident, limit, capacity)
  {
    hide Serve, AdmittedTimes, Bounded, Slips, Exempt, Handled, Admits;
    if requests == [] {
      NothingExceeds(ident, limit, capacity);
    } else {
      var init, r := requests[..|requests| - 1], requests[|requests| - 1];
      assert requests == init + [r];
      LimitExactly(init, ident, limit, capacity);
      if Exempt(r, limit) || r.ident != ident {
        OtherRequest(init, r, ident, limit, capacity);
      } else {
        LogSnoc(init, r, limit, capacity);
        if KeepsLimit(requests, ident, limit, capacity) {
          KeepsLimitInit(init, r, ident, limit, capacity);
        }
        if KeepsLimit(init, ident, limit, capacity) {
          RequestExactly(init, r, limit, capacity);
        }
      }
    }
  }

  // ---------------------------------------------------------------- a run that breaks the limit

  function Call(ident: string): Request { Request(true, "/api/x", ident, 0.0) }

  function Repeated(ident: string, n: nat): seq<Request> {
    if n == 0 then [] else Repeated(ident, n - 1) + [Call(ident)]
  }

  /** One request of each identity. */
  function Calls(idents: seq<string>): seq<Request> {
    if idents == [] then [] else Calls(idents[..|idents| - 1]) + [Call(idents[|idents| - 1])]
  }

  function Zeros(n: nat): seq<real> {
    if n == 0 then [] else Zeros(n - 1) + [0.0]
  }

  lemma {:induction false} CountOfZeros(n: nat)
    ensures |Zeros(n)| == n
  {
    if n > 0 {
      CountOfZeros(n - 1);
    }
  }

  lemma {:induction false} MinuteOfZeros(n: nat)
    ensures InMinute(Zeros(n), 0.0) == n
  {
    hide InMinute;
    if n == 0 {
      EmptyMinute(0.0);
    } else {
      MinuteOfZeros(n - 1);
      MinuteSnoc(Zeros(n - 1), 0.0, 0.0);
      assert Zeros(n) == Zeros(n - 1) + [0.0];
    }
  }

  ghost predicate AtZero(requests: seq<Request>) {
    forall i :: 0 <= i < |requests| ==> requests[i].now == 0.0
  }

  lemma {:induction false} CountAtMost(times: seq<real>, cutoff: real)
    ensures CountAfter(times, cutoff) <= |times|
  {
    if times != [] {
      CountAtMost(times[..|times| - 1], cutoff);
    }
  }

  /** A request that finds fewer admissions ever than the limit goes through. */
  lemma RoomLeft(requests: seq<Request>, ident: string, limit: nat, capacity: nat)
    requires AtZero(requests) && capacity >= 1 && |AdmittedTimes(Serve(requests, limit, capacity).log, ident)| < limit
    ensures EntryOf(Serve(requests, limit, capacity), Call(ident), limit, capacity).admitted
  {
    hide Handled, Admits;
    var s := Serve(requests, limit, capacity);
    DecisionFromHistory(requests, Call(ident), limit, capacity);
    CountedIsLast(s.log, ident, capacity);
    CountAtMost(Counted(s.log, ident, capacity), 0.0 - WINDOW);
  }

  lemma NotExempt(ident: string, limit: nat)
    requires limit >= 1
    ensures !Exempt(Call(ident), limit)
  {
    assert "/api/x"[..5] == "/api/";
  }

  /** `n` admissions of an identity at time 0, and nobody else remembered. */
  predicate FilledLog(log: seq<Entry>, ident: string, n: nat) {
    AdmittedTimes(log, ident) == Zeros(n) && Recency(log) == if n == 0 then [] else [ident]
  }

  lemma FilledStep(log: seq<Entry>, ident: string, n: nat)
    requires FilledLog(log, ident, n)
    ensures FilledLog(log + [Entry(ident, 0.0, true)], ident, n + 1)
  {
    AdmittedSnoc(log, Entry(ident, 0.0, true), ident);
    RecencySnoc(log, Entry(ident, 0.0, true));
    assert Without([ident], ident) == [] by { assert [ident][..0] == []; }
  }

  lemma {:induction false} RepeatedAtZero(ident: string, n: nat)
    ensures AtZero(Repeated(ident, n))
  {
    if n > 0 {
      RepeatedAtZero(ident, n - 1);
    }
  }

  /** One more request below the limit goes through. */
  lemma FilledNext(requests: seq<Request>, ident: string, n: nat, limit: nat, capacity: nat)
    requires AtZero(requests) && n < limit && capacity >= 1
    requires FilledLog(Serve(requests, limit, capacity).log, ident, n)
    ensures FilledLog(Serve(requests + [Call(ident)], limit, capacity).log, ident, n + 1)
  {
    hide Serve, Recency, AdmittedTimes, Exempt, Handled, Admits;
    CountOfZeros(n);
    RoomLeft(requests, ident, limit, capacity);
    NotExempt(ident, limit);
    LogSnoc(requests, Call(ident), limit, capacity);
    FilledStep(Serve(requests, limit, capacity).log, ident, n);
  }

  lemma NothingFilled(ident: string, limit: nat, capacity: nat)
    ensures FilledLog(Serve(Repeated(ident, 0), limit, capacity).log, ident, 0)
  {}

  /** Up to the limit, one identity's requests all go through, and nobody else is remembered. */
  lemma {:induction false} Filled(ident: string, n: nat, limit: nat, capacity: nat)
    requires n <= limit && limit >= 1 && capacity >= 1
    ensures FilledLog(Serve(Repeated(ident, n), limit, capacity).log, ident, n)
  {
    hide Serve, Recency, AdmittedTimes, Zeros;
    if n == 0 {
      NothingFilled(ident, limit, capacity);
    } else {
      Filled(ident, n - 1, limit, capacity);
      RepeatedAtZero(ident, n - 1);
      FilledNext(Repeated(ident, n - 1), ident, n - 1, limit, capacity);
    }
  }

  /** An identity's admissions, with these others asking after it. */
  predicate PushedLog(log: seq<Entry>, ident: string, others: seq<string>, times: seq<real>) {
    AdmittedTimes(log, ident) == times && Recency(log) == [ident] + others
  }

  /** Another identity asks for the first time. */
  lemma NewcomerStep(log: seq<Entry>, e: Entry, ident: string)
    requires e.ident != ident && e.ident !in Recency(log)
    ensures AdmittedTimes(log + [e], ident) == AdmittedTimes(log, ident)
    ensures Recency(log + [e]) == Recency(log) + [e.ident]
  {
    AdmittedSnoc(log, e, ident);
    RecencySnoc(log, e);
    WithoutAbsent(Recency(log), e.ident);
  }

  lemma PushedNext(requests: seq<Request>, ident: string, others: seq<string>, x: string, times: seq<real>,
                   limit: nat, capacity: nat)
    requires limit >= 1 && x != ident && x !in others
    requires PushedLog(Serve(requests, limit, capacity).log, ident, others, times)
    ensures PushedLog(Serve(requests + [Call(x)], limit, capacity).log, ident, others + [x], times)
  {
    hide Serve, Recency, AdmittedTimes, Handled, Admits, Exempt;
    var s := Serve(requests, limit, capacity);
    NotExempt(x, limit);
    LogSnoc(requests, Call(x), limit, capacity);
    NewcomerStep(s.log, EntryOf(s, Call(x), limit, capacity), ident);
    assert [ident] + others + [x] == [ident] + (others + [x]);
  }

  /** Others' requests leave the identity's admissions alone, and push it to the front of the recency order. */
  lemma {:induction false} Pushed(before: seq<Request>, ident: string, others: seq<string>, times: seq<real>,
                                  limit: nat, capacity: nat)
    requires limit >= 1 && ident !in others && AllDistinct(others)
    requires PushedLog(Serve(before, limit, capacity).log, ident, [], times)
    ensures PushedLog(Serve(before + Calls(others), limit, capacity).log, ident, others, times)
  {
    hide Serve, Recency, AdmittedTimes;
    if others == [] {
      assert before + Calls(others) == before;
    } else {
      var init, x := others[..|others| - 1], others[|others| - 1];
      Pushed(before, ident, init, times, limit, capacity);
      PushedNext(before + Calls(init), ident, init, x, times, limit, capacity);
      assert before + Calls(others) == before + Calls(init) + [Call(x)] && others == init + [x];
    }
  }

  lemma {:induction false} CallsAtZero(before: seq<Request>, idents: seq<string>)
    requires AtZero(before)
    ensures AtZero(before + Calls(idents))
  {
    if idents != [] {
      var init, x := idents[..|idents| - 1], idents[|idents| - 1];
      CallsAtZero(before, init);
      assert before + Calls(idents) == before + Calls(init) + [Call(x)];
    }
  }

  /** Fill one identity's minute, see as many others as the table holds, and come back. */
  function Comeback(ident: string, others: seq<string>, limit: nat): seq<Request> {
    Repeated(ident, limit) + Calls(others) + [Call(ident)]
  }

  /** After the fill and the others, the identity is forgotten with a full minute behind it. */
  lemma FilledAndForgotten(ident: string, others: seq<string>, limit: nat)
    requires limit >= 1 && |others| >= 1 && ident !in others && AllDistinct(others)
    ensures var log := Serve(Repeated(ident, limit) + Calls(others), limit, |others|).log;
      AdmittedTimes(log, ident) == Zeros(limit) && ident !in Remembered(log, |others|)
  {
    hide Serve, Recency, AdmittedTimes, Zeros;
    Filled(ident, limit, limit, |others|);
    Pushed(Repeated(ident, limit), ident, others, Zeros(limit), limit, |others|);
    assert Remembered(Serve(Repeated(ident, limit) + Calls(others), limit, |others|).log, |others|) == others;
  }

  /**
    For every limit, every table size and any identities, some minute then holds one
    admission more than the limit.
   */
  lemma ForgettingBreaksLimit(ident: string, others: seq<string>, limit: nat)
    requires limit >= 1 && |others| >= 1 && ident !in others && AllDistinct(others)
    ensures InMinute(AdmittedTimes(Serve(Comeback(ident, others, limit), limit, |others|).log, ident), 0.0) == limit + 1
  {
    hide Serve, Recency, AdmittedTimes, Handled, Admits, Exempt;
    var init := Repeated(ident, limit) + Calls(others);
    var s := Serve(init, limit, |others|);
    FilledAndForgotten(ident, others, limit);
    RepeatedAtZero(ident, limit);
    CallsAtZero(Repeated(ident, limit), others);
    ForgottenStartsAfresh(init, Call(ident), limit, |others|);
    NotExempt(ident, limit);
    LogSnoc(init, Call(ident), limit, |others|);
    AdmittedSnoc(s.log, EntryOf(s, Call(ident), limit, |others|), ident);
    MinuteOfZeros(limit);
    MinuteSnoc(Zeros(limit), 0.0, 0.0);
  }

  /** There are identities enough for a table of any size. */
  lemma {:induction false} Strangers(ident: string, n: nat) returns (others: seq<string>)
    ensures |others| == n && AllDistinct(others) && forall x :: x in others ==> |ident| < |x| <= |ident| + n
  {
    if n == 0 {
      others := [];
    } else {
      var init := Strangers(ident, n - 1);
      var x: string := seq(|ident| + n, _ => 'x');
      others := init + [x];
      assert forall i :: 0 <= i < n - 1 ==> others[i] == init[i] && init[i] in init;
    }
  }

  /** So no limit holds for any table size, whoever asks. */
  lemma EveryLimitBreaks(ident: string, limit: nat, capacity: nat) returns (requests: seq<Request>)
    requires limit >= 1 && capacity >= 1
    ensures InMinute(AdmittedTimes(Serve(requests, limit, capacity).log, ident), 0.0) == limit + 1
  {
    hide Serve, InMinute, AdmittedTimes;
    var others := Strangers(ident, capacity);
    requests := Comeback(ident, others, limit);
    ForgettingBreaksLimit(ident, others, limit);
  }
}
