/**
  The limit, minute by minute: while the table remembers an identity, none of its minutes
  holds more admissions than the limit.
 */
module RateLimiterMinutes {
  import opened RateLimiter

  /** How many of these times fall in the minute ending at `end`. */
  function InMinute(times: seq<real>, end: real): nat {
    if times == [] then 0
    else
      InMinute(times[..|times| - 1], end) + if end - WINDOW < times[|times| - 1] <= end then 1 else 0
  }

  lemma {:induction false} MinuteBelowCount(times: seq<real>, end: real, cutoff: real)
    requires cutoff <= end - WINDOW
    ensures InMinute(times, end) <= CountAfter(times, cutoff)
  {
    if times != [] {
      MinuteBelowCount(times[..|times| - 1], end, cutoff);
    }
  }

  lemma EmptyMinute(end: real)
    ensures InMinute([], end) == 0
  {}

  lemma MinuteSnoc(times: seq<real>, t: real, end: real)
    ensures InMinute(times + [t], end) == InMinute(times, end) + if end - WINDOW < t <= end then 1 else 0
  {
    assert (times + [t])[..|times|] == times;
  }

  lemma MinuteStep(counted: seq<real>, now: real, limit: nat, admitted: bool, end: real)
    requires admitted <==> CountAfter(counted, now - WINDOW) < limit
    requires InMinute(counted, end) <= limit
    ensures InMinute(counted + if admitted then [now] else [], end) <= limit
  {
    assert counted + [] == counted;
    MinuteSnoc(counted, now, end);
    if now <= end {
      MinuteBelowCount(counted, end, if now - WINDOW <= end - WINDOW then now - WINDOW else end - WINDOW);
    }
  }

  /** One more entry, decided by the counted times of its identity, keeps every minute within the limit. */
  lemma EntryMinute(log: seq<Entry>, e: Entry, limit: nat, capacity: nat, ident: string, end: real)
    requires e.admitted <==> CountAfter(Counted(log, e.ident, capacity), e.now - WINDOW) < limit
    requires InMinute(Residency(log, ident, capacity), end) <= limit
    ensures InMinute(Residency(log + [e], ident, capacity), end) <= limit
  {
    hide Recency, Remembered, InMinute, CountAfter, Residency;
    EmptyMinute(end);
    ResidencySnoc(log, e, ident, capacity);
    if ident == e.ident {
      MinuteStep(Counted(log, ident, capacity), e.now, limit, e.admitted, end);
    }
  }

  /** What a request that is not exempt leaves in the log. */
  function EntryOf(s: State, r: Request, limit: nat, capacity: nat): Entry {
    Entry(r.ident, r.now, Admits(s.table, r.ident, r.now, limit, capacity))
  }

  lemma LogSnoc(init: seq<Request>, r: Request, limit: nat, capacity: nat)
    ensures var s := Serve(init, limit, capacity);
      Serve(init + [r], limit, capacity).log ==
      if Exempt(r, limit) then s.log else s.log + [EntryOf(s, r, limit, capacity)]
  {
    ServeSnoc(init, r, limit, capacity);
  }

  lemma EntryDecided(init: seq<Request>, r: Request, limit: nat, capacity: nat)
    requires Monotonic(init + [r]) && capacity >= 1
    ensures var s := Serve(init, limit, capacity);
      EntryOf(s, r, limit, capacity).admitted <==> CountAfter(Counted(s.log, r.ident, capacity), r.now - WINDOW) < limit
  {
    DecisionFromHistory(init, r, limit, capacity);
  }

  /** The entry a counted request leaves, and what decides it. */
  lemma LogGrows(init: seq<Request>, r: Request, limit: nat, capacity: nat) returns (e: Entry)
    requires Monotonic(init + [r]) && capacity >= 1 && !Exempt(r, limit)
    ensures var log := Serve(init, limit, capacity).log;
      && Serve(init + [r], limit, capacity).log == log + [e] && e.ident == r.ident && e.now == r.now
      && (e.admitted <==> CountAfter(Counted(log, e.ident, capacity), e.now - WINDOW) < limit)
  {
    hide Serve, Handled, Admits, Counted, CountAfter, Exempt;
    e := EntryOf(Serve(init, limit, capacity), r, limit, capacity);
    LogSnoc(init, r, limit, capacity);
    EntryDecided(init, r, limit, capacity);
  }

  lemma NextMinute(init: seq<Request>, r: Request, limit: nat, capacity: nat, ident: string, end: real)
    requires Monotonic(init + [r]) && capacity >= 1
    requires InMinute(Residency(Serve(init, limit, capacity).log, ident, capacity), end) <= limit
    ensures InMinute(Residency(Serve(init + [r], limit, capacity).log, ident, capacity), end) <= limit
  {
    hide Serve, Handled, Admits, Residency, InMinute, Exempt;
    if Exempt(r, limit) {
      LogSnoc(init, r, limit, capacity);
    } else {
      var e := LogGrows(init, r, limit, capacity);
      EntryMinute(Serve(init, limit, capacity).log, e, limit, capacity, ident, end);
    }
  }

  /** No minute ever holds more admitted requests of an identity than the limit, while it is remembered. */
  lemma {:induction false} MinuteBound(requests: seq<Request>, limit: nat, capacity: nat, ident: string, end: real)
    requires Monotonic(requests) && capacity >= 1
    ensures InMinute(Residency(Serve(requests, limit, capacity).log, ident, capacity), end) <= limit
  {
    if requests != [] {
      var init, r := requests[..|requests| - 1], requests[|requests| - 1];
      assert requests == init + [r];
      MinuteBound(init, limit, capacity, ident, end);
      NextMinute(init, r, limit, capacity, ident, end);
    }
  }

  /** The whole history keeps within the limit for an identity that was never forgotten. */
  lemma MinuteBoundExact(requests: seq<Request>, limit: nat, capacity: nat, ident: string, end: real)
    requires Monotonic(requests) && capacity >= 1
    requires NeverForgotten(Serve(requests, limit, capacity).log, ident, capacity)
    ensures InMinute(AdmittedTimes(Serve(requests, limit, capacity).log, ident), end) <= limit
  {
    MinuteBound(requests, limit, capacity, ident, end);
    NothingForgotten(Serve(requests, limit, capacity).log, ident, capacity);
  }
}
