/**
 The fixed-window rate limiter: read the counter of the current window, compare, then increment it
 and renew its expiry.  The three Redis calls of one check are three steps, so checks overlap.

 One limited key is modelled; its counters are numbered by window.  A key without expiry stays.
*/
module FixedWindow {
  import opened Wrappers

  datatype Config = Config(windowMs: nat, maxRequests: nat)

  datatype Expiry = Never | At(time: int)

  datatype Entry = Entry(count: nat, expiry: Expiry)

  datatype Phase = ToIncrement | ToExpire

  /** An admitted check that has not finished: the window it read and the call it makes next. */
  datatype Flight = Flight(window: int, phase: Phase)

  /** `log` is history: the clock readings of the admitted checks. */
  datatype Limiter = Limiter(store: map<int, Entry>, flights: multiset<Flight>, log: seq<int>, clock: int)

  const IDLE := Limiter(map[], multiset{}, [], 0)

  datatype Event =
    | Check(now: int)
    | Increment(window: int, now: int)
    | Expire(window: int, now: int)

  // ----- One atomic step --------------------------------------------------------------------------

  predicate Alive(e: Entry, now: int) {
    e.expiry.Never? || now < e.expiry.time
  }

  function Value(store: map<int, Entry>, window: int, now: int): nat {
    if window in store && Alive(store[window], now) then store[window].count else 0
  }

  /** `Math.ceil(windowMs / 1000)` seconds, in milliseconds. */
  function Ttl(c: Config): nat {
    (c.windowMs + 999) / 1000 * 1000
  }

  function Incremented(store: map<int, Entry>, window: int, now: int): map<int, Entry> {
    if window in store && Alive(store[window], now)
    then store[window := store[window].(count := store[window].count + 1)]
    else store[window := Entry(1, Never)]
  }

  function Expiring(store: map<int, Entry>, window: int, now: int, ttl: nat): map<int, Entry> {
    if window in store && Alive(store[window], now)
    then store[window := store[window].(expiry := At(now + ttl))]
    else store
  }

  function Next(c: Config, s: Limiter, e: Event): Limiter
    requires c.windowMs > 0
  {
    var t := s.(clock := e.now);
    match e
    case Check(now) =>
      if Value(s.store, now / c.windowMs, now) < c.maxRequests
      then t.(flights := s.flights + multiset{Flight(now / c.windowMs, ToIncrement)}, log := s.log + [now])
      else t
    case Increment(w, now) =>
      t.(store := Incremented(s.store, w, now),
         flights := s.flights - multiset{Flight(w, ToIncrement)} + multiset{Flight(w, ToExpire)})
    case Expire(w, now) =>
      t.(store := Expiring(s.store, w, now, Ttl(c)), flights := s.flights - multiset{Flight(w, ToExpire)})
  }

  /** Time does not go back, at most `k` checks overlap, and a check makes its calls in order. */
  ghost predicate Possible(s: Limiter, e: Event, k: nat) {
    && s.clock <= e.now
    && match e
       case Check(_) => |s.flights| < k
       case Increment(w, _) => Flight(w, ToIncrement) in s.flights
       case Expire(w, _) => Flight(w, ToExpire) in s.flights
  }

  ghost function After(c: Config, k: nat, es: seq<Event>): Limiter
    requires c.windowMs > 0
  {
    if es == [] then IDLE
    else
      var s, e := After(c, k, es[..|es| - 1]), es[|es| - 1];
      if Possible(s, e, k) then Next(c, s, e) else s
  }

  // ----- Counting admissions ------------------------------------------------------------------------

  function InWindow(log: seq<int>, windowMs: nat, window: int): nat
    requires windowMs > 0
  {
    if log == [] then 0
    else InWindow(log[..|log| - 1], windowMs, window) + if log[|log| - 1] / windowMs == window then 1 else 0
  }

  function InSpan(log: seq<int>, from: int, to: int): nat {
    if log == [] then 0
    else InSpan(log[..|log| - 1], from, to) + if from <= log[|log| - 1] < to then 1 else 0
  }

  lemma DivisionFacts(a: int, b: int, m: nat)
    requires m > 0 && a <= b
    ensures a / m <= b / m && (a + m) / m == a / m + 1
  {
    DivisionMonotone(a, b, m);
    var q, x := a / m, (a + m) / m;
    assert q * m <= a < q * m + m && x * m <= a + m < x * m + m;
    MultiplyMonotone(q + 2, x, m);
    MultiplyMonotone(x, q, m);
  }

  lemma DivisionMonotone(a: int, b: int, m: nat)
    requires m > 0 && a <= b
    ensures a / m <= b / m
  {
    MultiplyMonotone(b / m + 1, a / m, m);
  }

  lemma MultiplyMonotone(x: int, y: int, m: nat)
    ensures x <= y ==> x * m <= y * m
  {
  }

  lemma {:induction false} SpanMeetsTwoWindows(log: seq<int>, m: nat, from: int)
    requires m > 0
    ensures InSpan(log, from, from + m) <= InWindow(log, m, from / m) + InWindow(log, m, from / m + 1)
  {
    if log != [] {
      var x := log[|log| - 1];
      SpanMeetsTwoWindows(log[..|log| - 1], m, from);
      if from <= x < from + m {
        DivisionFacts(from, x, m);
        DivisionFacts(x, from + m, m);
      }
    }
  }

  // ----- The invariant ----------------------------------------------------------------------------------

  ghost predicate Inv(c: Config, k: nat, s: Limiter)
    requires c.windowMs > 0
  {
    && |s.flights| <= k
    // a counter that expires does so after the end of its window
    && (forall w :: w in s.store && s.store[w].expiry.At? ==> s.store[w].expiry.time / c.windowMs > w)
    && (forall f :: f in s.flights ==> f.window <= s.clock / c.windowMs)
    // while a window lasts, its admissions are the counter plus those still to be counted
    && (forall w :: s.clock / c.windowMs <= w ==>
          InWindow(s.log, c.windowMs, w) == Value(s.store, w, s.clock) + s.flights[Flight(w, ToIncrement)])
    && (forall w :: InWindow(s.log, c.windowMs, w) <= if c.maxRequests == 0 then 0 else c.maxRequests + k - 1)
  }

  lemma Flying(s: multiset<Flight>, f: Flight)
    ensures s[f] <= |s|
  {
    assert |s[f := 0]| == |s| - s[f];
  }

  /** A counter of a window that has not ended is alive. */
  lemma CountersLast(c: Config, k: nat, s: Limiter, w: int, now: int)
    requires c.windowMs > 0 && Inv(c, k, s) && now / c.windowMs <= w && w in s.store
    ensures Alive(s.store[w], now)
  {
    var e := s.store[w].expiry;
    if e.At? && e.time <= now { DivisionMonotone(e.time, now, c.windowMs); }
  }

  lemma TimePasses(c: Config, k: nat, s: Limiter, now: int)
    requires c.windowMs > 0 && Inv(c, k, s) && s.clock <= now
    ensures Inv(c, k, s.(clock := now))
  {
    DivisionMonotone(s.clock, now, c.windowMs);
    forall w | now / c.windowMs <= w ensures Value(s.store, w, now) == Value(s.store, w, s.clock) {
      if w in s.store {
        CountersLast(c, k, s, w, s.clock);
        CountersLast(c, k, s, w, now);
      }
    }
  }

  lemma CheckKeeps(c: Config, k: nat, s: Limiter, e: Event)
    requires c.windowMs > 0 && Inv(c, k, s) && Possible(s, e, k) && e.Check? && e.now == s.clock
    ensures Inv(c, k, Next(c, s, e))
  {
    var t, w := Next(c, s, e), e.now / c.windowMs;
    Flying(s.flights, Flight(w, ToIncrement));
    if t.log != s.log {
      assert t.log[..|s.log|] == s.log;
      forall v ensures InWindow(t.log, c.windowMs, v) == InWindow(s.log, c.windowMs, v) + if v == w then 1 else 0 {}
    }
  }

  lemma IncrementKeeps(c: Config, k: nat, s: Limiter, e: Event)
    requires c.windowMs > 0 && Inv(c, k, s) && Possible(s, e, k) && e.Increment? && e.now == s.clock
    ensures Inv(c, k, Next(c, s, e))
  {
    var t := Next(c, s, e);
    forall v | s.clock / c.windowMs <= v
      ensures Value(t.store, v, s.clock) == Value(s.store, v, s.clock) + if v == e.window then 1 else 0
    {
    }
  }

  lemma ExpireKeeps(c: Config, k: nat, s: Limiter, e: Event)
    requires c.windowMs > 0 && Inv(c, k, s) && Possible(s, e, k) && e.Expire? && e.now == s.clock
    ensures Inv(c, k, Next(c, s, e))
  {
    var t := Next(c, s, e);
    DivisionFacts(e.now, e.now, c.windowMs);
    DivisionMonotone(e.now + c.windowMs, e.now + Ttl(c), c.windowMs);
    assert (e.now + Ttl(c)) / c.windowMs > e.window;
    forall v | s.clock / c.windowMs <= v ensures Value(t.store, v, s.clock) == Value(s.store, v, s.clock) {
    }
  }

  lemma {:induction false} AlwaysInv(c: Config, k: nat, es: seq<Event>)
    requires c.windowMs > 0
    ensures Inv(c, k, After(c, k, es))
  {
    if es != [] {
      var s, e := After(c, k, es[..|es| - 1]), es[|es| - 1];
      AlwaysInv(c, k, es[..|es| - 1]);
      if Possible(s, e, k) {
        TimePasses(c, k, s, e.now);
        var t := s.(clock := e.now);
        if e.Check? { CheckKeeps(c, k, t, e); }
        else if e.Increment? { IncrementKeeps(c, k, t, e); }
        else { ExpireKeeps(c, k, t, e); }
      }
    }
  }

  /**
   With at most `k` checks overlapping, a window admits at most `k - 1` more than the limit, and any
   span as long as a window at most twice that.
  */
  lemma AdmissionsBounded(c: Config, k: nat, es: seq<Event>, window: int, from: int)
    requires c.windowMs > 0 && k > 0
    ensures InWindow(After(c, k, es).log, c.windowMs, window) <= c.maxRequests + k - 1
    ensures InSpan(After(c, k, es).log, from, from + c.windowMs) <= 2 * (c.maxRequests + k - 1)
  {
    AlwaysInv(c, k, es);
    SpanMeetsTwoWindows(After(c, k, es).log, c.windowMs, from);
  }

  // ----- Counters do not stay ------------------------------------------------------------------------------

  /** When the expiry of the window's counter was last renewed; a new counter has none. */
  function Renewed(s: Limiter, e: Event, w: int, last: Option<int>): Option<int> {
    var alive := w in s.store && Alive(s.store[w], e.now);
    if e.Expire? && e.window == w && alive then Some(e.now)
    else if e.Increment? && e.window == w && !alive then None
    else last
  }

  ghost function LastExpire(c: Config, k: nat, es: seq<Event>, w: int): Option<int>
    requires c.windowMs > 0
  {
    if es == [] then None
    else
      var s, e, last := After(c, k, es[..|es| - 1]), es[|es| - 1], LastExpire(c, k, es[..|es| - 1], w);
      if Possible(s, e, k) then Renewed(s, e, w, last) else last
  }

  lemma TtlExactly(c: Config)
    ensures Ttl(c) % 1000 == 0 && c.windowMs <= Ttl(c) < c.windowMs + 1000
  {
  }

  ghost predicate ExpiresAfter(store: map<int, Entry>, w: int, last: Option<int>, ttl: nat) {
    w in store ==> store[w].expiry == match last case None => Never case Some(at) => At(at + ttl)
  }

  lemma ExpiryStep(c: Config, s: Limiter, e: Event, w: int, last: Option<int>, ttl: nat)
    requires c.windowMs > 0 && ttl == Ttl(c) && ExpiresAfter(s.store, w, last, ttl) && (w !in s.store ==> last == None)
    ensures ExpiresAfter(Next(c, s, e).store, w, Renewed(s, e, w, last), ttl)
    ensures w !in Next(c, s, e).store ==> Renewed(s, e, w, last) == None
  {
  }

  /** A counter expires a window length, rounded up to seconds, after its last expire call; else never. */
  lemma {:induction false} ExpiryExactly(c: Config, k: nat, es: seq<Event>, w: int, ttl: nat)
    requires c.windowMs > 0 && ttl == Ttl(c)
    ensures ExpiresAfter(After(c, k, es).store, w, LastExpire(c, k, es, w), ttl)
    ensures w !in After(c, k, es).store ==> LastExpire(c, k, es, w) == None
  {
    if es != [] {
      var before, e := es[..|es| - 1], es[|es| - 1];
      ExpiryExactly(c, k, before, w, ttl);
      if Possible(After(c, k, before), e, k) {
        ExpiryStep(c, After(c, k, before), e, w, LastExpire(c, k, before, w), ttl);
      }
    }
  }

  /** So it reads as zero less than a second after a window length has gone by since that call. */
  lemma CounterGone(c: Config, k: nat, es: seq<Event>, w: int, now: int)
    requires c.windowMs > 0 && LastExpire(c, k, es, w).Some?
    requires now >= LastExpire(c, k, es, w).value + c.windowMs + 999
    ensures Value(After(c, k, es).store, w, now) == 0
  {
    TtlExactly(c);
    ExpiryExactly(c, k, es, w, Ttl(c));
  }

  // ----- The bounds are reached -----------------------------------------------------------------------

  // The bursts below are built inside any set of states that is closed under possible events.

  ghost predicate Closed(c: Config, k: nat, states: iset<Limiter>)
    requires c.windowMs > 0
  {
    forall s, e :: s in states && Possible(s, e, k) ==> Next(c, s, e) in states
  }

  ghost predicate Leads(c: Config, k: nat, s: Limiter)
    requires c.windowMs > 0
  {
    exists es :: After(c, k, es) == s
  }

  ghost function Reachable(c: Config, k: nat): iset<Limiter>
    requires c.windowMs > 0
  {
    iset s | Leads(c, k, s)
  }

  lemma ReachableIsClosed(c: Config, k: nat)
    requires c.windowMs > 0
    ensures IDLE in Reachable(c, k) && Closed(c, k, Reachable(c, k))
  {
    assert After(c, k, []) == IDLE;
    forall s, e | s in Reachable(c, k) && Possible(s, e, k) ensures Next(c, s, e) in Reachable(c, k) {
      var es :| After(c, k, es) == s;
      assert (es + [e])[..|es|] == es;
      assert After(c, k, es + [e]) == Next(c, s, e);
    }
  }

  function Copies(x: int, n: nat): seq<int> {
    if n == 0 then [] else Copies(x, n - 1) + [x]
  }

  lemma OneMoreInWindow(log: seq<int>, x: int, m: nat, w: int)
    requires m > 0 && x / m == w
    ensures InWindow(log + [x], m, w) == InWindow(log, m, w) + 1
  {
    assert (log + [x])[..|log|] == log;
  }

  lemma {:induction false} CopiesInWindow(x: int, n: nat, m: nat, w: int)
    requires m > 0 && x / m == w
    ensures InWindow(Copies(x, n), m, w) == n
  {
    if n > 0 {
      CopiesInWindow(x, n - 1, m, w);
      OneMoreInWindow(Copies(x, n - 1), x, m, w);
    }
  }

  lemma {:induction false} CopiesInSpan(log: seq<int>, x: int, n: nat, from: int, to: int)
    requires from <= x < to
    ensures InSpan(log + Copies(x, n), from, to) == InSpan(log, from, to) + n
  {
    if n == 0 {
      assert log + [] == log;
    } else {
      CopiesInSpan(log, x, n - 1, from, to);
      var shorter := log + Copies(x, n - 1);
      assert log + Copies(x, n) == shorter + [x];
      assert (shorter + [x])[..|shorter|] == shorter;
    }
  }

  lemma FromNothing(x: int, n: nat)
    ensures [] + Copies(x, n) == Copies(x, n)
  {
  }

  lemma CopiesAloneInSpan(x: int, n: nat, from: int, to: int)
    requires from <= x < to
    ensures InSpan(Copies(x, n), from, to) == n
  {
    CopiesInSpan([], x, n, from, to);
    FromNothing(x, n);
  }

  /** Nothing is in progress, and the window `w` and all later ones are untouched. */
  ghost predicate Untouched(s: Limiter, at: int, w: int) {
    s.clock <= at && s.flights == multiset{} && forall v :: w <= v ==> v !in s.store
  }

  /** What `n` checks at the time `at` in window `w` have done, of which the first `done` have finished. */
  ghost predicate Burst(s: Limiter, log: seq<int>, at: int, w: int, done: nat, n: nat)
    requires done <= n
  {
    && s.clock <= at && s.log == log + Copies(at, n) && Value(s.store, w, at) == done
    && s.flights == multiset{}[Flight(w, ToIncrement) := n - done]
    && forall v :: w < v ==> v !in s.store
  }

  lemma CheckJoins(c: Config, s: Limiter, log: seq<int>, at: int, w: int, done: nat, n: nat, k: nat)
    requires c.windowMs > 0 && at / c.windowMs == w && done <= n && Burst(s, log, at, w, done, n)
    requires done < c.maxRequests && n - done < k
    ensures Possible(s, Check(at), k) && Burst(Next(c, s, Check(at)), log, at, w, done, n + 1)
  {
    assert log + Copies(at, n + 1) == log + Copies(at, n) + [at];
  }

  lemma FirstFinishes(c: Config, s: Limiter, log: seq<int>, at: int, w: int, done: nat, n: nat, k: nat)
    requires c.windowMs > 0 && done < n && Burst(s, log, at, w, done, n)
    ensures var t := Next(c, s, Increment(w, at));
      && Possible(s, Increment(w, at), k) && Possible(t, Expire(w, at), k)
      && Burst(Next(c, t, Expire(w, at)), log, at, w, done + 1, n)
  {
    var t := Next(c, s, Increment(w, at));
    assert t.flights - multiset{Flight(w, ToExpire)} == multiset{}[Flight(w, ToIncrement) := n - done - 1];
  }

  lemma Join(c: Config, k: nat, states: iset<Limiter>, s: Limiter, log: seq<int>, at: int, w: int, done: nat, n: nat)
    returns (t: Limiter)
    requires c.windowMs > 0 && Closed(c, k, states) && s in states
    requires at / c.windowMs == w && done <= n && Burst(s, log, at, w, done, n)
    requires done < c.maxRequests && n - done < k
    ensures t in states && Burst(t, log, at, w, done, n + 1)
  {
    CheckJoins(c, s, log, at, w, done, n, k);
    t := Next(c, s, Check(at));
  }

  lemma Finish(c: Config, k: nat, states: iset<Limiter>, s: Limiter, log: seq<int>, at: int, w: int, done: nat, n: nat)
    returns (t: Limiter)
    requires c.windowMs > 0 && Closed(c, k, states) && s in states
    requires done < n && Burst(s, log, at, w, done, n)
    ensures t in states && Burst(t, log, at, w, done + 1, n)
  {
    FirstFinishes(c, s, log, at, w, done, n, k);
    t := Next(c, Next(c, s, Increment(w, at)), Expire(w, at));
  }

  /** As many checks one after the other as leave one admission in the window. */
  lemma {:induction false} OneByOne(c: Config, k: nat, states: iset<Limiter>, s: Limiter, at: int, w: int, n: nat)
    returns (t: Limiter)
    requires c.windowMs > 0 && Closed(c, k, states) && s in states
    requires at / c.windowMs == w && k > 0 && n < c.maxRequests && Untouched(s, at, w)
    ensures t in states && Burst(t, s.log, at, w, n, n)
  {
    if n == 0 {
      t := s;
      assert s.log + [] == s.log;
    } else {
      t := OneByOne(c, k, states, s, at, w, n - 1);
      t := Join(c, k, states, t, s.log, at, w, n - 1, n - 1);
      t := Finish(c, k, states, t, s.log, at, w, n - 1, n);
    }
  }

  /** Then `j` checks at once, which all read the counter before any of them increments it. */
  lemma {:induction false} AtOnce(c: Config, k: nat, states: iset<Limiter>, s: Limiter, at: int, w: int, j: nat)
    returns (t: Limiter)
    requires c.windowMs > 0 && Closed(c, k, states) && s in states
    requires at / c.windowMs == w && 0 < c.maxRequests && j <= k && k > 0 && Untouched(s, at, w)
    ensures t in states && Burst(t, s.log, at, w, c.maxRequests - 1, c.maxRequests - 1 + j)
  {
    if j == 0 {
      t := OneByOne(c, k, states, s, at, w, c.maxRequests - 1);
    } else {
      t := AtOnce(c, k, states, s, at, w, j - 1);
      t := Join(c, k, states, t, s.log, at, w, c.maxRequests - 1, c.maxRequests + j - 2);
    }
  }

  /** A burst finishes, and leaves the windows after its own untouched. */
  lemma {:induction false} AllFinish(
      c: Config, k: nat, states: iset<Limiter>, s: Limiter, log: seq<int>, at: int, w: int, done: nat, n: nat)
    returns (t: Limiter)
    requires c.windowMs > 0 && Closed(c, k, states) && s in states
    requires done <= n && Burst(s, log, at, w, done, n)
    ensures t in states && Untouched(t, at + 1, w + 1) && t.log == log + Copies(at, n)
    decreases n - done
  {
    if done == n {
      t := s;
    } else {
      t := Finish(c, k, states, s, log, at, w, done, n);
      t := AllFinish(c, k, states, t, log, at, w, done + 1, n);
    }
  }

  lemma WindowEnds(m: nat)
    requires m > 0
    ensures 0 / m == 0 && (m - 1) / m == 0 && m / m == 1
  {
    assert m - 1 == 0 * m + (m - 1);
  }

  lemma LargestBurst(c: Config, k: nat, states: iset<Limiter>, n: nat) returns (t: Limiter)
    requires c.windowMs > 0 && Closed(c, k, states) && IDLE in states
    requires c.maxRequests > 0 && k > 0 && n == c.maxRequests + k - 1
    ensures t in states && t.log == Copies(0, n)
  {
    WindowEnds(c.windowMs);
    t := AtOnce(c, k, states, IDLE, 0, 0, k);
    FromNothing(0, n);
  }

  lemma TwoBursts(c: Config, k: nat, states: iset<Limiter>, m: nat, n: nat) returns (t: Limiter)
    requires m == c.windowMs > 0 && Closed(c, k, states) && IDLE in states
    requires c.maxRequests > 0 && k > 0 && n == c.maxRequests + k - 1
    ensures t in states && t.log == Copies(m - 1, n) + Copies(m, n)
  {
    WindowEnds(m);
    t := AtOnce(c, k, states, IDLE, m - 1, 0, k);
    t := AllFinish(c, k, states, t, [], m - 1, 0, c.maxRequests - 1, n);
    FromNothing(m - 1, n);
    t := AtOnce(c, k, states, t, m, 1, k);
  }

  lemma SpanOfTwoBursts(m: nat, n: nat)
    requires m > 1
    ensures InSpan(Copies(m - 1, n) + Copies(m, n), m - 1, m - 1 + m) == 2 * n
  {
    CopiesAloneInSpan(m - 1, n, m - 1, m - 1 + m);
    CopiesInSpan(Copies(m - 1, n), m, n, m - 1, m - 1 + m);
  }

  /** The bound of a window is reached, for every configuration and every degree of overlap. */
  lemma WindowBoundIsTight(c: Config, k: nat, m: nat, n: nat) returns (es: seq<Event>)
    requires m == c.windowMs > 0 && c.maxRequests > 0 && k > 0 && n == c.maxRequests + k - 1
    ensures InWindow(After(c, k, es).log, m, 0) == n
  {
    ReachableIsClosed(c, k);
    var t := LargestBurst(c, k, Reachable(c, k), n);
    es :| After(c, k, es) == t;
    WindowEnds(m);
    CopiesInWindow(0, n, m, 0);
  }

  /** So is the bound of a span: one burst in the last millisecond of a window, one in the next. */
  lemma SpanBoundIsTight(c: Config, k: nat, m: nat, n: nat) returns (es: seq<Event>)
    requires m == c.windowMs > 1 && c.maxRequests > 0 && k > 0 && n == c.maxRequests + k - 1
    ensures InSpan(After(c, k, es).log, m - 1, m - 1 + m) == 2 * n
  {
    ReachableIsClosed(c, k);
    var t := TwoBursts(c, k, Reachable(c, k), m, n);
    es :| After(c, k, es) == t;
    SpanOfTwoBursts(m, n);
  }

  /** A window never admits more than the limit exactly when no two checks overlap, or nothing is allowed. */
  lemma LimitKeptExactly(c: Config, k: nat)
    requires c.windowMs > 0
    ensures (forall es, w :: InWindow(After(c, k, es).log, c.windowMs, w) <= c.maxRequests)
       <==> k <= 1 || c.maxRequests == 0
  {
    if k <= 1 || c.maxRequests == 0 {
      forall es, w ensures InWindow(After(c, k, es).log, c.windowMs, w) <= c.maxRequests {
        AlwaysInv(c, k, es);
      }
    } else {
      var es := WindowBoundIsTight(c, k, c.windowMs, c.maxRequests + k - 1);
      assert InWindow(After(c, k, es).log, c.windowMs, 0) > c.maxRequests;
    }
  }

  // ----- The service code -----------------------------------------------------------------------------------

  datatype Fault = NoFault | GetFails | IncrFails | ExpireFails

  datatype Verdict = Verdict(allowed: bool, remaining: int, resetTime: int, totalHits: nat)

  class RateLimitingService {
    const config: Config
    var store: map<int, Entry>

    constructor (config: Config)
      ensures this.config == config && store == map[]
    {
      this.config := config;
      store := map[];
    }

    method Get(window: int, now: int) returns (count: nat)
      ensures count == Value(store, window, now)
    {
      if window !in store || !Alive(store[window], now) { return 0; }
      count := store[window].count;
    }

    method Incr(window: int, now: int)
      modifies this`store
      ensures store == Incremented(old(store), window, now)
    {
      var count := Get(window, now);
      var expiry := if window in store && Alive(store[window], now) then store[window].expiry else Never;
      store := store[window := Entry(count + 1, expiry)];
    }

    method SetExpiry(window: int, ttl: nat, now: int)
      modifies this`store
      ensures store == Expiring(old(store), window, now, ttl)
    {
      if window in store && Alive(store[window], now) {
        store := store[window := Entry(store[window].count, At(now + ttl))];
      }
    }

    /**
     A check that nothing overlaps; its clock readings are `read`, `counted`, `expired`, `answered`.  A Redis
     call that fails ends it, and lets the request pass; an increment that has happened by then stays.
    */
    method CheckRateLimit(read: int, counted: int, expired: int, answered: int, fault: Fault) returns (r: Verdict)
      requires config.windowMs > 0 && read <= counted <= expired <= answered
      modifies this`store
      ensures var s1 := Next(config, Limiter(old(store), multiset{}, [], read), Check(read));
        var w, below := read / config.windowMs, s1.log == [read];
        var s2 := Next(config, s1, Increment(w, counted));
        && store == (if !below || fault.GetFails? || fault.IncrFails? then old(store)
                     else if fault.ExpireFails? then s2.store
                     else Next(config, s2, Expire(w, expired)).store)
        && if fault.GetFails? || (below && !fault.NoFault?)
           then r == Verdict(true, config.maxRequests, answered + config.windowMs, 0)
           else && r.allowed == below && answered <= r.resetTime < answered + config.windowMs
                && r.resetTime % config.windowMs == 0
                && (r.allowed ==> r.remaining == config.maxRequests - r.totalHits >= 0)
                && (!r.allowed ==> r.remaining == 0 && config.maxRequests <= r.totalHits)
      ensures var w := read / config.windowMs;
        var count := if w in old(store) && (old(store)[w].expiry == Never || read < old(store)[w].expiry.time)
                     then old(store)[w].count else 0;
        && (fault.NoFault? ==> (r.allowed <==> count < config.maxRequests))
        && (fault.NoFault? ==> r.totalHits == count + if r.allowed then 1 else 0)
    {
      var failedOpen := Verdict(true, config.maxRequests, answered + config.windowMs, 0);
      var windowKey := read / config.windowMs;
      if fault == GetFails { return failedOpen; }
      var count := Get(windowKey, read);
      var allowed := count < config.maxRequests;
      if allowed {
        if fault == IncrFails { return failedOpen; }
        Incr(windowKey, counted);
        if fault == ExpireFails { return failedOpen; }
        SetExpiry(windowKey, (config.windowMs + 999) / 1000 * 1000, expired);
      }
      var hits := count + if allowed then 1 else 0;
      var remaining := if config.maxRequests - hits > 0 then config.maxRequests - hits else 0;
      var m := config.windowMs;
      var reset := (answered + (m - 1)) / m * m;
      CeilingFacts(answered, m);
      r := Verdict(allowed, remaining, reset, hits);
    }
  }

  lemma CeilingFacts(a: int, m: nat)
    requires m > 0
    ensures a <= (a + (m - 1)) / m * m < a + m
    ensures (a + (m - 1)) / m * m % m == 0
  {
    var b := a + (m - 1);
    assert b == b / m * m + b % m;
    Multiple(b / m, m);
  }

  lemma Multiple(q: int, m: nat)
    requires m > 0
    ensures q * m % m == 0
  {
    var x, y := q * m / m, q * m % m;
    assert q * m == x * m + y;
    if q < x { MultiplyMonotone(q + 1, x, m); }
    if x < q { MultiplyMonotone(x + 1, q, m); }
  }
}
