/**
 The per-handler rate-limit guard: one counter per client and handler, whose lifetime is renewed by
 every admitted request.  Requests on the modelled key do not overlap.
*/
module RateLimitGuard {
  import opened Wrappers

  type Positive = x: int | x > 0 witness 1

  datatype Options = Options(windowMs: Positive, limit: nat)

  datatype Stored = Absent | Present(count: nat, expiresAt: int)

  /** `Math.ceil(windowMs / 1000)` seconds, in milliseconds. */
  function Ttl(o: Options): nat {
    (o.windowMs + 999) / 1000 * 1000
  }

  function Current(s: Stored, now: int): nat {
    if s.Present? && now < s.expiresAt then s.count else 0
  }

  function Passes(o: Options, s: Stored, now: int): bool {
    Current(s, now) < o.limit
  }

  function Next(o: Options, s: Stored, now: int): Stored {
    if Passes(o, s, now) then Present(Current(s, now) + 1, now + Ttl(o)) else s
  }

  /** The stored counter after requests at the given times. */
  function After(o: Options, requests: seq<int>): Stored {
    if requests == [] then Absent
    else Next(o, After(o, requests[..|requests| - 1]), requests[|requests| - 1])
  }

  /** The times of the admitted requests. */
  function Admitted(o: Options, requests: seq<int>): seq<int> {
    if requests == [] then []
    else
      var before, now := requests[..|requests| - 1], requests[|requests| - 1];
      if Passes(o, After(o, before), now) then Admitted(o, before) + [now] else Admitted(o, before)
  }

  ghost predicate Ordered(times: seq<int>) {
    forall i, j :: 0 <= i < j < |times| ==> times[i] <= times[j]
  }

  /** How many admissions there were since the last pause of at least `ttl`. */
  function SincePause(log: seq<int>, ttl: nat): nat {
    if log == [] then 0
    else if |log| > 1 && log[|log| - 1] - log[|log| - 2] < ttl then 1 + SincePause(log[..|log| - 1], ttl)
    else 1
  }

  function InSpan(log: seq<int>, from: int, to: int): nat {
    if log == [] then 0
    else InSpan(log[..|log| - 1], from, to) + if from <= log[|log| - 1] < to then 1 else 0
  }

  /** At no time did more than `limit` admissions follow each other without a pause. */
  ghost predicate NeverMore(log: seq<int>, ttl: nat, limit: nat) {
    log != [] ==> SincePause(log, ttl) <= limit && NeverMore(log[..|log| - 1], ttl, limit)
  }

  // ----- What the counter means ------------------------------------------------------------------------

  ghost predicate Describes(s: Stored, log: seq<int>, o: Options) {
    && NeverMore(log, Ttl(o), o.limit)
    && s == if log == [] then Absent else Present(SincePause(log, Ttl(o)), log[|log| - 1] + Ttl(o))
  }

  lemma RequestKeeps(s: Stored, log: seq<int>, o: Options, now: int)
    requires Describes(s, log, o)
    ensures Describes(Next(o, s, now), if Passes(o, s, now) then log + [now] else log, o)
  {
    assert (log + [now])[..|log|] == log;
  }

  lemma LastIsLatest(requests: seq<int>)
    requires Ordered(requests) && requests != []
    ensures forall x :: x in requests ==> x <= requests[|requests| - 1]
  {
  }

  lemma {:induction false} AdmittedInOrder(o: Options, requests: seq<int>, last: int)
    requires Ordered(requests) && forall x :: x in requests ==> x <= last
    ensures Ordered(Admitted(o, requests)) && forall x :: x in Admitted(o, requests) ==> x <= last && x in requests
  {
    if requests != [] {
      var before, now := requests[..|requests| - 1], requests[|requests| - 1];
      LastIsLatest(requests);
      AdmittedInOrder(o, before, now);
      assert forall i :: 0 <= i < |Admitted(o, before)| ==> Admitted(o, before)[i] in Admitted(o, before);
      forall x | x in Admitted(o, requests) ensures x <= last && x in requests {
        assert requests[|requests| - 1] in requests && (x in Admitted(o, before) || x == now);
      }
    }
  }

  lemma {:induction false} CounterCountsSincePause(o: Options, requests: seq<int>)
    requires Ordered(requests)
    ensures var log := Admitted(o, requests);
      Ordered(log) && (forall x :: x in log ==> x in requests) && Describes(After(o, requests), log, o)
  {
    if requests != [] {
      var before, now := requests[..|requests| - 1], requests[|requests| - 1];
      CounterCountsSincePause(o, before);
      RequestKeeps(After(o, before), Admitted(o, before), o, now);
      LastIsLatest(requests);
      AdmittedInOrder(o, requests, now);
    }
  }

  /** Exactly when a request passes: after a pause, or while the burst is below the limit. */
  lemma PassesExactly(o: Options, requests: seq<int>, now: int)
    requires Ordered(requests + [now])
    ensures var log := Admitted(o, requests);
      Passes(o, After(o, requests), now)
      <==> o.limit > 0 && (log == [] || now - log[|log| - 1] >= Ttl(o) || SincePause(log, Ttl(o)) < o.limit)
  {
    assert forall i :: 0 <= i < |requests| ==> (requests + [now])[i] == requests[i];
    CounterCountsSincePause(o, requests);
  }

  // ----- The sliding window -------------------------------------------------------------------------------

  lemma {:induction false} NothingBefore(log: seq<int>, from: int, to: int)
    requires Ordered(log) && (log != [] ==> log[|log| - 1] < from)
    ensures InSpan(log, from, to) == 0
  {
    if log != [] { NothingBefore(log[..|log| - 1], from, to); }
  }

  /** A span that ends with the newest admission holds only admissions of the current burst. */
  lemma {:induction false} SpanWithinBurst(log: seq<int>, ttl: nat, from: int, to: int)
    requires Ordered(log) && log != [] && from <= log[|log| - 1] < to <= from + ttl
    ensures InSpan(log, from, to) <= SincePause(log, ttl)
  {
    if |log| > 1 {
      var before := log[..|log| - 1];
      if from <= log[|log| - 2] {
        SpanWithinBurst(before, ttl, from, to);
      } else {
        NothingBefore(before, from, to);
      }
    }
  }

  lemma {:induction false} SpanBounded(log: seq<int>, ttl: nat, limit: nat, from: int, to: int)
    requires Ordered(log) && NeverMore(log, ttl, limit) && to <= from + ttl
    ensures InSpan(log, from, to) <= limit
  {
    if log != [] {
      if from <= log[|log| - 1] < to {
        SpanWithinBurst(log, ttl, from, to);
      } else {
        SpanBounded(log[..|log| - 1], ttl, limit, from, to);
      }
    }
  }

  /** Every half-open span of the configured length holds at most `limit` admissions. */
  lemma SlidingWindow(o: Options, requests: seq<int>, from: int)
    requires Ordered(requests)
    ensures InSpan(Admitted(o, requests), from, from + o.windowMs) <= o.limit
  {
    CounterCountsSincePause(o, requests);
    SpanBounded(Admitted(o, requests), Ttl(o), o.limit, from, from + o.windowMs);
  }

  // ----- Who is shut out without need ---------------------------------------------------------------------

  /** If the request at `now` is rejected, then the window that ends with it is full. */
  ghost predicate FairTo(o: Options, requests: seq<int>, now: int) {
    Ordered(requests + [now]) && !Passes(o, After(o, requests), now) ==>
      InSpan(Admitted(o, requests), now - o.windowMs + 1, now + 1) >= o.limit
  }

  ghost predicate Fair(o: Options) {
    forall requests, now :: FairTo(o, requests, now)
  }

  /** The time after `n` gaps. */
  function Moment(gap: nat, n: nat): nat {
    if n == 0 then 0 else Moment(gap, n - 1) + gap
  }

  /** One request every `gap`. */
  function Steady(gap: nat, n: nat): seq<int> {
    if n == 0 then [] else Steady(gap, n - 1) + [Moment(gap, n - 1)]
  }

  lemma {:induction false} SteadyIsOrdered(gap: nat, n: nat)
    ensures |Steady(gap, n)| == n && Ordered(Steady(gap, n))
    ensures n > 0 ==> Steady(gap, n)[0] == 0 && Steady(gap, n)[n - 1] == Moment(gap, n - 1)
    ensures n > 1 ==> Moment(gap, n) >= 2 * gap
  {
    if n > 0 { SteadyIsOrdered(gap, n - 1); }
  }

  lemma SteadyStep(o: Options, s: Stored, n: nat, last: int, now: int)
    requires n < o.limit && s == (if n == 0 then Absent else Present(n, last + Ttl(o)))
    requires last <= now && now - last < Ttl(o)
    ensures Passes(o, s, now) && Next(o, s, now) == Present(n + 1, now + Ttl(o))
  {
  }

  /** As long as each comes before the counter expires, all of the first `limit` pass and are counted. */
  lemma {:induction false} SteadyPasses(o: Options, gap: nat, n: nat)
    requires gap < Ttl(o) && n <= o.limit
    ensures Admitted(o, Steady(gap, n)) == Steady(gap, n)
    ensures After(o, Steady(gap, n)) == if n == 0 then Absent else Present(n, Moment(gap, n - 1) + Ttl(o))
  {
    if n > 0 {
      var before := Steady(gap, n - 1);
      SteadyPasses(o, gap, n - 1);
      assert Steady(gap, n)[..|Steady(gap, n)| - 1] == before;
      SteadyStep(o, After(o, before), n - 1, if n == 1 then 0 else Moment(gap, n - 2), Moment(gap, n - 1));
    }
  }

  lemma {:induction false} InSpanAtMost(log: seq<int>, from: int, to: int)
    ensures InSpan(log, from, to) <= |log|
    ensures log != [] && log[0] < from ==> InSpan(log, from, to) < |log|
  {
    if log != [] { InSpanAtMost(log[..|log| - 1], from, to); }
  }

  lemma TtlCovers(o: Options)
    ensures o.windowMs <= Ttl(o) && Ttl(o) >= 1000
    ensures o.windowMs == Ttl(o) <==> o.windowMs % 1000 == 0
  {
  }

  lemma SteadyTimes(gap: nat, n: nat, windowMs: nat, ttl: nat)
    requires n > 0 && 0 < windowMs <= ttl && ttl >= 1000
    requires if n == 1 then gap == windowMs < ttl else gap == ttl - 1
    ensures Moment(gap, n) == Moment(gap, n - 1) + gap && gap < ttl && Moment(gap, n) >= windowMs
    ensures Ordered(Steady(gap, n) + [Moment(gap, n)])
  {
    SteadyIsOrdered(gap, n);
    SteadyIsOrdered(gap, n + 1);
    assert Steady(gap, n + 1) == Steady(gap, n) + [Moment(gap, n)];
  }

  lemma FullAndAlive(o: Options, s: Stored, now: int)
    requires s.Present? && s.count >= o.limit && now < s.expiresAt
    ensures !Passes(o, s, now)
  {
  }

  /**
   A client that stays below the limit in every window is shut out all the same when its requests keep
   renewing the counter: `limit` requests, each just before the counter expires, and then one more.
  */
  lemma SteadyClientIsShutOut(o: Options, ttl: nat) returns (requests: seq<int>, now: int)
    requires ttl == Ttl(o) && (o.limit >= 2 || (o.limit == 1 && o.windowMs < ttl))
    ensures Ordered(requests + [now]) && Admitted(o, requests) == requests
    ensures InSpan(requests, now - o.windowMs + 1, now + 1) < o.limit
    ensures !Passes(o, After(o, requests), now)
  {
    var gap: nat := if o.limit == 1 then o.windowMs else ttl - 1;
    TtlCovers(o);
    requests, now := Steady(gap, o.limit), Moment(gap, o.limit);
    SteadyTimes(gap, o.limit, o.windowMs, ttl);
    SteadyPasses(o, gap, o.limit);
    FullAndAlive(o, After(o, requests), now);
    SteadyIsOrdered(gap, o.limit);
    InSpanAtMost(requests, now - o.windowMs + 1, now + 1);
  }

  lemma OrderedBefore(requests: seq<int>, now: int)
    requires Ordered(requests + [now])
    ensures Ordered(requests) && forall x :: x in requests ==> x <= now
  {
    assert forall i :: 0 <= i < |requests| ==> (requests + [now])[i] == requests[i];
    assert (requests + [now])[|requests|] == now;
  }

  lemma LastInSpan(log: seq<int>, from: int, to: int)
    requires log != [] && from <= log[|log| - 1] < to
    ensures InSpan(log, from, to) >= 1
  {
  }

  /** With a limit of one and a window of whole seconds, a rejected request finds the one admission. */
  lemma OneInTheWindow(o: Options, requests: seq<int>, now: int)
    requires o.limit == 1 && o.windowMs == Ttl(o) && Ordered(requests + [now]) && !Passes(o, After(o, requests), now)
    ensures InSpan(Admitted(o, requests), now - o.windowMs + 1, now + 1) >= 1
  {
    PassesExactly(o, requests, now);
    OrderedBefore(requests, now);
    AdmittedInOrder(o, requests, now);
    var log := Admitted(o, requests);
    assert log[|log| - 1] in log;
    LastInSpan(log, now - o.windowMs + 1, now + 1);
  }

  /** Exactly a limit of one with a window of whole seconds, or of none, shuts nobody out without need. */
  lemma FairExactly(o: Options)
    ensures Fair(o) <==> o.limit == 0 || (o.limit == 1 && o.windowMs % 1000 == 0)
  {
    TtlCovers(o);
    if o.limit == 1 && o.windowMs == Ttl(o) {
      forall requests, now ensures FairTo(o, requests, now) {
        if Ordered(requests + [now]) && !Passes(o, After(o, requests), now) { OneInTheWindow(o, requests, now); }
      }
    } else if o.limit > 0 {
      var requests, now := SteadyClientIsShutOut(o, Ttl(o));
      assert !FairTo(o, requests, now);
    }
  }

  // ----- The service code --------------------------------------------------------------------------------

  datatype Fault = NoFault | GetFails | SetFails

  /** `remaining` is the header, which is not set when the handler has no options or Redis fails. */
  datatype Answer = Answer(allowed: bool, remaining: Option<nat>)

  class RateLimitGuard {
    const options: Option<Options>
    var stored: Stored

    constructor (options: Option<Options>)
      ensures this.options == options && stored == Absent
    {
      this.options := options;
      stored := Absent;
    }

    method CanActivate(now: int, fault: Fault) returns (answer: Answer)
      modifies this`stored
      ensures options.None? || fault.GetFails? ==> answer == Answer(true, None) && stored == old(stored)
      ensures options.Some? && !fault.GetFails? ==>
        var o := options.value;
        var passes := Passes(o, old(stored), now);
        && (!passes ==> answer == Answer(false, Some(0)) && stored == old(stored))
        && (passes && fault.SetFails? ==> answer == Answer(true, None) && stored == old(stored))
        && (passes && fault.NoFault? ==>
              stored == Next(o, old(stored), now) && stored.Present?
              && answer.allowed && answer.remaining.Some? && answer.remaining.value == o.limit - stored.count)
    {
      if options.None? { return Answer(true, None); }
      var o := options.value;
      if fault == GetFails { return Answer(true, None); }
      var count := if stored.Present? && now < stored.expiresAt then stored.count else 0;
      if count >= o.limit {
        return Answer(false, Some(0));
      }
      if fault == SetFails { return Answer(true, None); }
      if count == 0 {
        stored := Present(1, now + (o.windowMs + 999) / 1000 * 1000);
      } else {
        stored := Present(count + 1, now + (o.windowMs + 999) / 1000 * 1000);
      }
      var remaining: nat := if o.limit - count - 1 > 0 then o.limit - count - 1 else 0;
      return Answer(true, Some(remaining));
    }
  }
}
