/**
 The named circuit breakers that guard every call to Novu and to the auth service.

 `Circuit` is the value of one breaker record and `Step` its reaction to one atomic event.
 An `execute` call is two events: its admission, and, later, the completion of the operation it
 started, which may find the record in any state.  `CircuitBreakerService` at the end is the
 object that keeps the records; its methods are proved to be exactly these steps.
*/
module CircuitBreaker {

  datatype State = Closed | Open | HalfOpen

  datatype Options = Options(failureThreshold: int, timeout: int, resetTimeout: int)

  const DEFAULT_OPTIONS := Options(5, 30000, 60000)

  datatype Circuit = Circuit(state: State, failureCount: nat, lastFailureTime: int, nextAttempt: int)

  const FRESH := Circuit(Closed, 0, 0, 0)

  // ----- One atomic step ---------------------------------------------------------------------

  /** A failed completion reads the clock twice: once to stamp the failure, once to set the timer. */
  datatype Event =
    | Execute(now: int)
    | Succeed(now: int)
    | Fail(now: int, later: int)
    | Poll(now: int)
    | Reset(now: int)
    | ForceHalfOpen(now: int)
  {
    function End(): int { if Fail? then later else now }
  }

  /** The admission half of `execute`: may the operation start, and the record afterwards. */
  function Admit(c: Circuit, now: int): (bool, Circuit) {
    if c.state.Open? && now < c.nextAttempt then (false, c)
    else if c.state.Open? then (true, c.(state := HalfOpen))
    else (true, c)
  }

  function OnSuccess(c: Circuit): Circuit {
    c.(failureCount := 0, state := Closed)
  }

  function OnFailure(c: Circuit, o: Options, now: int, later: int): Circuit {
    var d := c.(failureCount := c.failureCount + 1, lastFailureTime := now);
    if c.state.HalfOpen? || d.failureCount >= o.failureThreshold
    then d.(state := Open, nextAttempt := later + o.resetTimeout)
    else d
  }

  /** `isCircuitOpen` answers and, once the timer has run out, also moves the record. */
  function IsOpen(c: Circuit, now: int): (bool, Circuit) {
    if c.state.Open? then
      if now >= c.nextAttempt then (false, c.(state := HalfOpen)) else (true, c)
    else (false, c)
  }

  function Step(c: Circuit, o: Options, e: Event): Circuit {
    match e
    case Execute(now) => Admit(c, now).1
    case Succeed(_) => OnSuccess(c)
    case Fail(now, later) => OnFailure(c, o, now, later)
    case Poll(now) => IsOpen(c, now).1
    case Reset(_) => FRESH
    case ForceHalfOpen(_) => c.(state := HalfOpen, nextAttempt := 0)
  }

  // ----- Runs --------------------------------------------------------------------------------

  function Run(c: Circuit, o: Options, es: seq<Event>): Circuit {
    if es == [] then c else Step(Run(c, o, es[..|es| - 1]), o, es[|es| - 1])
  }

  /** The answers that the `execute` calls of the run received, in order. */
  function Verdicts(c: Circuit, o: Options, es: seq<Event>): seq<bool> {
    if es == [] then []
    else
      var before, e := es[..|es| - 1], es[|es| - 1];
      Verdicts(c, o, before) + (if e.Execute? then [Admit(Run(c, o, before), e.now).0] else [])
  }

  function WithoutPolls(es: seq<Event>): (r: seq<Event>)
    ensures forall e :: e in r ==> e in es && !e.Poll?
  {
    if es == [] then []
    else if es[|es| - 1].Poll? then WithoutPolls(es[..|es| - 1])
    else WithoutPolls(es[..|es| - 1]) + [es[|es| - 1]]
  }

  /** The clock never goes back. */
  ghost predicate Timely(es: seq<Event>) {
    && (forall i :: 0 <= i < |es| ==> es[i].now <= es[i].End())
    && (forall i, j :: 0 <= i < j < |es| ==> es[i].End() <= es[j].now)
  }

  ghost predicate Unforced(es: seq<Event>) {
    forall e :: e in es ==> !e.ForceHalfOpen?
  }

  /** A breaker that is not closed has collected at least the threshold of failures. */
  ghost predicate Tripped(c: Circuit, o: Options) {
    !c.state.Closed? ==> c.failureCount >= o.failureThreshold
  }

  lemma {:induction false} TrippedAlways(c: Circuit, o: Options, es: seq<Event>)
    requires Tripped(c, o) && Unforced(es)
    ensures Tripped(Run(c, o, es), o)
  {
    if es != [] {
      assert es[|es| - 1] in es;
      TrippedAlways(c, o, es[..|es| - 1]);
    }
  }

  // ----- Polling is invisible ----------------------------------------------------------------

  /** An open breaker whose next failure renews the timer. */
  ghost predicate Ripe(c: Circuit, o: Options) {
    c.state.Open? ==> c.failureCount > 0 && c.failureCount + 1 >= o.failureThreshold
  }

  lemma {:induction false} RipeAlways(o: Options, es: seq<Event>)
    requires Unforced(es) || o.failureThreshold <= 2
    ensures Ripe(Run(FRESH, o, es), o)
    ensures var c := Run(FRESH, o, es);
      Unforced(es) && !c.state.Closed? ==> c.failureCount > 0 && c.failureCount >= o.failureThreshold
  {
    if es != [] {
      assert es[|es| - 1] in es;
      RipeAlways(o, es[..|es| - 1]);
    }
  }

  /** `a` has been polled and `b` has not: equal, or only `a` has noticed that the timer ran out. */
  ghost predicate Mimics(a: Circuit, b: Circuit, now: int) {
    a == b || (b.state.Open? && b.nextAttempt <= now && a == b.(state := HalfOpen))
  }

  lemma MimicsStep(a: Circuit, b: Circuit, o: Options, now: int, e: Event)
    requires Mimics(a, b, now) && Ripe(b, o) && now <= e.now <= e.End()
    ensures e.Poll? ==> Mimics(Step(a, o, e), b, e.End())
    ensures !e.Poll? ==> Mimics(Step(a, o, e), Step(b, o, e), e.End())
    ensures e.Execute? ==> Admit(a, e.now).0 == Admit(b, e.now).0
  {
  }

  lemma {:induction false} PolledRunMimics(o: Options, es: seq<Event>, now: int)
    requires Timely(es) && (Unforced(es) || o.failureThreshold <= 2)
    requires es != [] ==> es[|es| - 1].End() <= now
    ensures Mimics(Run(FRESH, o, es), Run(FRESH, o, WithoutPolls(es)), now)
    ensures Verdicts(FRESH, o, es) == Verdicts(FRESH, o, WithoutPolls(es))
  {
    if es != [] {
      var before, e := es[..|es| - 1], es[|es| - 1];
      assert e in es;
      PolledRunMimics(o, before, e.now);
      var bare := WithoutPolls(before);
      RipeAlways(o, bare);
      MimicsStep(Run(FRESH, o, before), Run(FRESH, o, bare), o, e.now, e);
      if !e.Poll? {
        assert (bare + [e])[..|bare|] == bare;
      } else {
        assert WithoutPolls(es) == bare;
      }
    }
  }

  /** However a run is polled, its `execute` calls are admitted and rejected alike. */
  lemma PollingIsInvisible(o: Options, polled: seq<Event>, other: seq<Event>)
    requires Timely(polled) && Timely(other) && WithoutPolls(polled) == WithoutPolls(other)
    requires (Unforced(polled) && Unforced(other)) || o.failureThreshold <= 2
    ensures Verdicts(FRESH, o, polled) == Verdicts(FRESH, o, other)
  {
    if polled != [] { PolledRunMimics(o, polled, polled[|polled| - 1].End()); }
    if other != [] { PolledRunMimics(o, other, other[|other| - 1].End()); }
  }

  // ----- Polling and `forceHalfOpen` -----------------------------------------------------------

  function Executes(es: seq<Event>): nat {
    if es == [] then 0 else Executes(es[..|es| - 1]) + if es[|es| - 1].Execute? then 1 else 0
  }

  lemma {:induction false} ExecutesAreNotPolls(es: seq<Event>)
    ensures Executes(WithoutPolls(es)) == Executes(es)
  {
    if es != [] {
      var before, e := es[..|es| - 1], es[|es| - 1];
      ExecutesAreNotPolls(before);
      var bare := WithoutPolls(before);
      assert (bare + [e])[..|bare|] == bare;
      assert WithoutPolls(es) == if e.Poll? then bare else bare + [e];
    }
  }

  function Trues(n: nat): seq<bool> {
    if n == 0 then [] else Trues(n - 1) + [true]
  }

  /** A timer that has run out when it is set rejects nobody. */
  lemma {:induction false} NoTimerNoRejection(o: Options, es: seq<Event>, now: int)
    requires o.resetTimeout <= 0 && Timely(es) && (es != [] ==> es[|es| - 1].End() <= now)
    ensures Run(FRESH, o, es).state.Open? ==> Run(FRESH, o, es).nextAttempt <= now
    ensures Verdicts(FRESH, o, es) == Trues(Executes(es))
  {
    if es != [] {
      NoTimerNoRejection(o, es[..|es| - 1], es[|es| - 1].now);
    }
  }

  lemma AllAdmitted(o: Options, es: seq<Event>)
    requires o.resetTimeout <= 0 && Timely(es)
    ensures Verdicts(FRESH, o, es) == Trues(Executes(WithoutPolls(es)))
  {
    ExecutesAreNotPolls(es);
    NoTimerNoRejection(o, es, if es == [] then 0 else es[|es| - 1].End());
  }

  /** Two runs that differ in polls alone give the same verdicts. */
  ghost predicate SameVerdicts(o: Options, polled: seq<Event>, other: seq<Event>) {
    Timely(polled) && Timely(other) && WithoutPolls(polled) == WithoutPolls(other) ==>
      Verdicts(FRESH, o, polled) == Verdicts(FRESH, o, other)
  }

  /**
   The run that tells them apart: a forced probe fails, which opens the breaker with a count of one.  When
   the timer has run out, a second failure reopens the polled breaker, which is half-open by then, but stays
   below the threshold of the other one.
  */
  lemma ForcedBreakerShowsPolls(o: Options, t: int) returns (polled: seq<Event>, bare: seq<Event>)
    requires o.failureThreshold >= 3 && o.resetTimeout > 0 && t == o.resetTimeout
    ensures bare == [ForceHalfOpen(0), Fail(0, 0), Fail(t, t), Execute(t)]
    ensures polled == [ForceHalfOpen(0), Fail(0, 0), Poll(t), Fail(t, t), Execute(t)]
    ensures Verdicts(FRESH, o, polled) == [false] && Verdicts(FRESH, o, bare) == [true]
  {
    var forced := Extend(FRESH, o, [], ForceHalfOpen(0));
    forced := Extend(FRESH, o, forced, Fail(0, 0));
    bare := Extend(FRESH, o, forced, Fail(t, t));
    bare := Extend(FRESH, o, bare, Execute(t));
    polled := Extend(FRESH, o, forced, Poll(t));
    polled := Extend(FRESH, o, polled, Fail(t, t));
    polled := Extend(FRESH, o, polled, Execute(t));
  }

  lemma SameWhenMild(o: Options, polled: seq<Event>, other: seq<Event>)
    requires o.failureThreshold <= 2 || o.resetTimeout <= 0
    requires Timely(polled) && Timely(other) && WithoutPolls(polled) == WithoutPolls(other)
    ensures Verdicts(FRESH, o, polled) == Verdicts(FRESH, o, other)
  {
    if o.failureThreshold <= 2 {
      PollingIsInvisible(o, polled, other);
    } else {
      AllAdmitted(o, polled);
      AllAdmitted(o, other);
    }
  }

  lemma {:induction false} WithoutPollsConcat(a: seq<Event>, b: seq<Event>)
    ensures WithoutPolls(a + b) == WithoutPolls(a) + WithoutPolls(b)
  {
    if b == [] {
      assert a + b == a;
    } else {
      var k := |b| - 1;
      WithoutPollsConcat(a, b[..k]);
      assert (a + b)[..|a + b| - 1] == a + b[..k] && (a + b)[|a + b| - 1] == b[k];
      assert WithoutPolls(a + b) == if b[k].Poll? then WithoutPolls(a + b[..k]) else WithoutPolls(a + b[..k]) + [b[k]];
    }
  }

  lemma OnePollMore(before: seq<Event>, now: int, rest: seq<Event>)
    ensures WithoutPolls(before + [Poll(now)] + rest) == WithoutPolls(before + rest)
  {
    WithoutPollsConcat(before + [Poll(now)], rest);
    WithoutPollsConcat(before, [Poll(now)]);
    WithoutPollsConcat(before, rest);
  }

  lemma ForcedRunsDiffer(o: Options) returns (polled: seq<Event>, bare: seq<Event>)
    requires o.failureThreshold >= 3 && o.resetTimeout > 0
    ensures !SameVerdicts(o, polled, bare)
  {
    var t := o.resetTimeout;
    polled, bare := ForcedBreakerShowsPolls(o, t);
    OnePollMore([ForceHalfOpen(0), Fail(0, 0)], t, [Fail(t, t), Execute(t)]);
    assert polled == [ForceHalfOpen(0), Fail(0, 0)] + [Poll(t)] + [Fail(t, t), Execute(t)];
    assert bare == [ForceHalfOpen(0), Fail(0, 0)] + [Fail(t, t), Execute(t)];
  }

  /**
   With `forceHalfOpen` allowed, polls change no verdict exactly when the threshold is at most two, so that
   the failure after the forced probe opens the breaker anyway, or when the timer rejects nobody.
  */
  lemma PollsShowExactly(o: Options)
    ensures (forall polled, other :: SameVerdicts(o, polled, other))
       <==> o.failureThreshold <= 2 || o.resetTimeout <= 0
  {
    if o.failureThreshold <= 2 || o.resetTimeout <= 0 {
      forall polled, other ensures SameVerdicts(o, polled, other) {
        if Timely(polled) && Timely(other) && WithoutPolls(polled) == WithoutPolls(other) {
          SameWhenMild(o, polled, other);
        }
      }
    } else {
      var polled, bare := ForcedRunsDiffer(o);
    }
  }

  /** What one more event adds to a run. */
  lemma Extend(c: Circuit, o: Options, es: seq<Event>, e: Event) returns (longer: seq<Event>)
    ensures longer == es + [e]
    ensures Run(c, o, longer) == Step(Run(c, o, es), o, e)
    ensures Verdicts(c, o, longer)
         == Verdicts(c, o, es) + (if e.Execute? then [Admit(Run(c, o, es), e.now).0] else [])
  {
    longer := es + [e];
    assert longer[..|es|] == es;
  }

  // ----- The state is a function of the completion history -------------------------------------

  /** How many failures have completed since the last success or reset. */
  function FailureStreak(es: seq<Event>): nat {
    if es == [] then 0
    else
      match es[|es| - 1]
      case Fail(_, _) => 1 + FailureStreak(es[..|es| - 1])
      case Succeed(_) => 0
      case Reset(_) => 0
      case _ => FailureStreak(es[..|es| - 1])
  }

  /** Closed means exactly that no failure is outstanding or that the threshold is not reached. */
  lemma {:induction false} StateFollowsHistory(o: Options, es: seq<Event>)
    requires Unforced(es)
    ensures Run(FRESH, o, es).failureCount == FailureStreak(es)
    ensures Run(FRESH, o, es).state.Closed?
       <==> FailureStreak(es) == 0 || FailureStreak(es) < o.failureThreshold
  {
    if es != [] {
      assert es[|es| - 1] in es;
      StateFollowsHistory(o, es[..|es| - 1]);
    }
  }

  /** The two clock readings of the newest failure, counted from the last reset; successes do not matter. */
  function LastFailure(es: seq<Event>): (int, int) {
    if es == [] then (0, 0)
    else
      match es[|es| - 1]
      case Fail(now, later) => (now, later)
      case Reset(_) => (0, 0)
      case _ => LastFailure(es[..|es| - 1])
  }

  /** A breaker that is not closed has its timer from the newest failure, and only time half-opens it. */
  lemma {:induction false} TimerFollowsHistory(o: Options, es: seq<Event>, now: int)
    requires Unforced(es) && Timely(es) && (es != [] ==> es[|es| - 1].End() <= now)
    ensures var c := Run(FRESH, o, es);
      && c.lastFailureTime == LastFailure(es).0
      && (!c.state.Closed? ==> c.nextAttempt == LastFailure(es).1 + o.resetTimeout)
      && (c.state.HalfOpen? ==> c.nextAttempt <= now)
  {
    if es != [] {
      var before, e := es[..|es| - 1], es[|es| - 1];
      assert e in es;
      TimerFollowsHistory(o, before, e.now);
      TrippedAlways(FRESH, o, before);
    }
  }

  /**
   Exactly when an `execute` is rejected, from the completions alone: the threshold of failures has been
   reached since the last success or reset, and the reset timeout after the newest one is not over.
  */
  lemma RejectedExactly(o: Options, es: seq<Event>, now: int)
    requires Unforced(es) && Timely(es + [Execute(now)])
    ensures !Admit(Run(FRESH, o, es), now).0
       <==> FailureStreak(es) > 0 && FailureStreak(es) >= o.failureThreshold
            && now < LastFailure(es).1 + o.resetTimeout
  {
    var whole := es + [Execute(now)];
    assert whole[|es|] == Execute(now) && forall i :: 0 <= i < |es| ==> whole[i] == es[i];
    StateFollowsHistory(o, es);
    TimerFollowsHistory(o, es, now);
  }

  /**
   Exactly when a poll answers "open": under the condition on which an `execute` at that moment would be
   rejected.
  */
  lemma PollAnswersExactly(o: Options, es: seq<Event>, now: int)
    requires Unforced(es) && Timely(es + [Poll(now)])
    ensures IsOpen(Run(FRESH, o, es), now).0
       <==> FailureStreak(es) > 0 && FailureStreak(es) >= o.failureThreshold
            && now < LastFailure(es).1 + o.resetTimeout
  {
    var whole := es + [Poll(now)];
    assert whole[|es|] == Poll(now) && forall i :: 0 <= i < |es| ==> whole[i] == es[i];
    StateFollowsHistory(o, es);
    TimerFollowsHistory(o, es, now);
  }

  /** Since the newest completion, someone has asked after the reset timeout of the newest failure. */
  function Probed(o: Options, es: seq<Event>): bool {
    if es == [] then false
    else
      var before, e := es[..|es| - 1], es[|es| - 1];
      (e.Execute? || e.Poll?) && (Probed(o, before) || e.now >= LastFailure(before).1 + o.resetTimeout)
  }

  /** The timer as the newest failure at or above the threshold has set it; successes do not clear it. */
  function Timer(o: Options, es: seq<Event>): int {
    if es == [] || es[|es| - 1].Reset? then 0
    else if es[|es| - 1].Fail? && FailureStreak(es) >= o.failureThreshold then es[|es| - 1].later + o.resetTimeout
    else Timer(o, es[..|es| - 1])
  }

  /** The whole record, read off the history. */
  lemma {:induction false} RecordFollowsHistory(o: Options, es: seq<Event>)
    requires Unforced(es) && Timely(es)
    ensures var c, n := Run(FRESH, o, es), FailureStreak(es);
      && c.failureCount == n && c.lastFailureTime == LastFailure(es).0 && c.nextAttempt == Timer(o, es)
      && c.state == if n == 0 || n < o.failureThreshold then Closed else if Probed(o, es) then HalfOpen else Open
  {
    if es != [] {
      var before, e := es[..|es| - 1], es[|es| - 1];
      assert e in es;
      RecordFollowsHistory(o, before);
      StateFollowsHistory(o, es);
      TimerFollowsHistory(o, es, e.End());
      TimerFollowsHistory(o, before, e.now);
    }
  }

  // ----- The quiet period after opening --------------------------------------------------------

  ghost predicate NothingHeals(es: seq<Event>) {
    forall e :: e in es ==> !e.Succeed? && !e.Reset? && !e.ForceHalfOpen?
  }

  lemma {:induction false} StaysOpen(c: Circuit, o: Options, es: seq<Event>, from: int)
    requires c.state.Open? && Tripped(c, o) && c.nextAttempt == from + o.resetTimeout
    requires Timely(es) && NothingHeals(es) && (forall e :: e in es ==> from <= e.now)
    requires es != [] ==> es[|es| - 1].now < from + o.resetTimeout
    ensures var d := Run(c, o, es);
      d.state.Open? && Tripped(d, o) && d.nextAttempt >= from + o.resetTimeout
  {
    if es != [] {
      var before, e := es[..|es| - 1], es[|es| - 1];
      assert e in es;
      if before != [] { assert before[|before| - 1].End() <= e.now; }
      StaysOpen(c, o, before, from);
    }
  }

  lemma {:induction false} RunConcat(c: Circuit, o: Options, es: seq<Event>, more: seq<Event>)
    ensures Run(c, o, es + more) == Run(Run(c, o, es), o, more)
  {
    if more == [] {
      assert es + more == es;
    } else {
      var k := |more| - 1;
      RunConcat(c, o, es, more[..k]);
      assert (es + more)[..|es| + k] == es + more[..k];
    }
  }

  ghost predicate NothingFails(es: seq<Event>) {
    forall e :: e in es ==> !e.Fail?
  }

  lemma {:induction false} LastFailureStays(es: seq<Event>, more: seq<Event>)
    requires NothingHeals(more) && NothingFails(more)
    ensures LastFailure(es + more) == LastFailure(es)
  {
    if more == [] {
      assert es + more == es;
    } else {
      var k := |more| - 1;
      assert more[k] in more;
      LastFailureStays(es, more[..k]);
      assert (es + more)[..|es| + k] == es + more[..k];
    }
  }

  /**
   A failure that leaves the breaker open, at clock reading `f.later`, starts a quiet period: unless
   a late success or a reset intervenes, an `execute` is rejected until the reset timeout is over.
   If moreover nothing else failed in between, every one after it is admitted.
  */
  lemma QuietPeriod(o: Options, past: seq<Event>, f: Event, between: seq<Event>, now: int)
    requires Unforced(past) && f.Fail? && Run(FRESH, o, past + [f]).state.Open?
    requires Timely(past + [f] + between + [Execute(now)]) && NothingHeals(between)
    ensures now < f.later + o.resetTimeout
        ==> !Admit(Run(FRESH, o, past + [f] + between), now).0
    ensures now >= f.later + o.resetTimeout && NothingFails(between)
        ==> Admit(Run(FRESH, o, past + [f] + between), now).0
  {
    var start := past + [f];
    assert start[..|past|] == past;
    if now < f.later + o.resetTimeout {
      TrippedAlways(FRESH, o, past);
      OpenedByFailure(Run(FRESH, o, past), o, f);
      TimelyParts(past, f, between, now);
      StaysOpen(Run(FRESH, o, start), o, between, f.later);
      RunConcat(FRESH, o, start, between);
    } else if NothingFails(between) {
      LastFailureStays(start, between);
      assert forall e :: e in start + between ==> e in past || e == f || e in between;
      RejectedExactly(o, start + between, now);
    }
  }

  lemma TimelyParts(past: seq<Event>, f: Event, between: seq<Event>, now: int)
    requires Timely(past + [f] + between + [Execute(now)])
    ensures Timely(between) && f.End() <= now
    ensures forall e :: e in between ==> f.End() <= e.now && e.now <= e.End() <= now
  {
    var whole := past + [f] + between + [Execute(now)];
    assert whole[|past|] == f && whole[|whole| - 1] == Execute(now);
    assert forall i :: 0 <= i < |between| ==> whole[|past| + 1 + i] == between[i];
  }

  lemma OpenedByFailure(c: Circuit, o: Options, f: Event)
    requires Tripped(c, o) && f.Fail? && Step(c, o, f).state.Open?
    ensures Step(c, o, f).nextAttempt == f.later + o.resetTimeout && Tripped(Step(c, o, f), o)
  {
  }

  // ----- The service object --------------------------------------------------------------------

  /** One record of the service's table, updated in place by whoever holds it. */
  class CircuitRecord {
    var state: State
    var failureCount: nat
    var lastFailureTime: int
    var nextAttempt: int

    ghost function Value(): Circuit
      reads this
    {
      Circuit(state, failureCount, lastFailureTime, nextAttempt)
    }

    constructor ()
      ensures Value() == FRESH
    {
      state, failureCount, lastFailureTime, nextAttempt := Closed, 0, 0, 0;
    }

    method RecordSuccess()
      modifies this
      ensures Value() == OnSuccess(old(Value()))
    {
      failureCount := 0;
      state := Closed;
    }

    method RecordFailure(options: Options, now: int, later: int)
      modifies this
      ensures Value() == OnFailure(old(Value()), options, now, later)
    {
      failureCount := failureCount + 1;
      lastFailureTime := now;
      if state == HalfOpen {
        state := Open;
        nextAttempt := later + options.resetTimeout;
      } else if failureCount >= options.failureThreshold {
        state := Open;
        nextAttempt := later + options.resetTimeout;
      }
    }
  }

  /** A circuit that is not in the table behaves as a fresh one. */
  function Lookup(circuits: map<string, Circuit>, name: string): Circuit {
    if name in circuits then circuits[name] else FRESH
  }

  class CircuitBreakerService {
    var circuits: map<string, CircuitRecord>

    ghost predicate Valid()
      reads this
    {
      forall m, n :: m in circuits && n in circuits && m != n ==> circuits[m] != circuits[n]
    }

    ghost function Table(): map<string, Circuit>
      reads this, circuits.Values
    {
      map n | n in circuits :: circuits[n].Value()
    }

    constructor ()
      ensures Valid() && Table() == map[]
    {
      circuits := map[];
    }

    method GetOrCreateCircuit(name: string) returns (circuit: CircuitRecord)
      requires Valid()
      modifies this
      ensures Valid() && name in circuits && circuits[name] == circuit
      ensures fresh(circuits.Values - old(circuits.Values))
      ensures Table() == old(Table())[name := Lookup(old(Table()), name)]
    {
      if name !in circuits {
        var created := new CircuitRecord();
        circuits := circuits[name := created];
      }
      circuit := circuits[name];
    }

    /** `execute` up to the call of the operation; rejection is the thrown "is OPEN" error. */
    method BeginExecute(name: string, now: int) returns (admitted: bool)
      requires Valid()
      modifies this, circuits.Values
      ensures Valid()
      ensures var c := Lookup(old(Table()), name);
        && (admitted <==> !(c.state.Open? && now < c.nextAttempt))
        && Table() == old(Table())[name := if c.state.Open? && admitted then c.(state := HalfOpen) else c]
      ensures admitted == Admit(Lookup(old(Table()), name), now).0
      ensures Table() == old(Table())[name := Step(Lookup(old(Table()), name), DEFAULT_OPTIONS, Execute(now))]
    {
      var circuit := GetOrCreateCircuit(name);
      assert Table()[name] == circuit.Value();
      if circuit.state == Open {
        if now < circuit.nextAttempt {
          return false;
        }
        circuit.state := HalfOpen;
      }
      return true;
    }

    /** The rest of `execute`, when the operation or its timeout has settled. */
    method CompleteExecute(name: string, options: Options, succeeded: bool, now: int, later: int)
      requires Valid() && name in circuits
      modifies circuits.Values
      ensures Valid() && circuits == old(circuits)
      ensures var c := old(Table())[name];
        Table()[name].state == if succeeded then Closed
                               else if c.state.HalfOpen? || c.failureCount + 1 >= options.failureThreshold then Open
                               else c.state
      ensures Table() == old(Table())[name := Step(old(Table())[name], options,
                                                   if succeeded then Succeed(now) else Fail(now, later))]
    {
      var circuit := circuits[name];
      if succeeded {
        circuit.RecordSuccess();
      } else {
        circuit.RecordFailure(options, now, later);
      }
    }

    method ResetCircuit(name: string)
      requires Valid()
      modifies circuits.Values
      ensures Valid() && circuits == old(circuits)
      ensures Table() == if name in circuits then old(Table())[name := FRESH] else old(Table())
    {
      if name in circuits {
        var circuit := circuits[name];
        circuit.state := Closed;
        circuit.failureCount := 0;
        circuit.lastFailureTime := 0;
        circuit.nextAttempt := 0;
      }
    }

    method IsCircuitOpen(name: string, now: int) returns (open: bool)
      requires Valid()
      modifies circuits.Values
      ensures Valid() && circuits == old(circuits)
      ensures open <==> name in circuits && old(circuits[name].state).Open? && now < old(circuits[name].nextAttempt)
      ensures name in circuits ==>
        circuits[name].state == if old(circuits[name].state).Open? && !open then HalfOpen else old(circuits[name].state)
      ensures open == IsOpen(Lookup(old(Table()), name), now).0
      ensures Table() == if name in circuits
                         then old(Table())[name := Step(old(Table())[name], DEFAULT_OPTIONS, Poll(now))]
                         else old(Table())
    {
      if name !in circuits { return false; }
      var circuit := circuits[name];
      if circuit.state == Open {
        if now >= circuit.nextAttempt {
          circuit.state := HalfOpen;
          return false;
        }
        return true;
      }
      return false;
    }

    /** The metrics show the record as it was before the embedded poll moved it. */
    method GetCircuitMetrics(name: string, now: int) returns (known: bool, shown: Circuit, isOpen: bool)
      requires Valid()
      modifies circuits.Values
      ensures Valid() && circuits == old(circuits) && known == (name in circuits)
      ensures shown == Lookup(old(Table()), name)
      ensures isOpen <==> shown.state.Open? && now < shown.nextAttempt
      ensures Table() == if known
                         then old(Table())[name := Step(shown, DEFAULT_OPTIONS, Poll(now))]
                         else old(Table())
    {
      if name !in circuits { return false, FRESH, false; }
      var circuit := circuits[name];
      shown := Circuit(circuit.state, circuit.failureCount, circuit.lastFailureTime, circuit.nextAttempt);
      known := true;
      isOpen := IsCircuitOpen(name, now);
    }

    method ForceHalfOpen(name: string)
      requires Valid()
      modifies circuits.Values
      ensures Valid() && circuits == old(circuits)
      ensures Table() == if name in circuits
                         then old(Table())[name := old(Table())[name].(state := HalfOpen, nextAttempt := 0)]
                         else old(Table())
    {
      if name in circuits {
        var circuit := circuits[name];
        circuit.state := HalfOpen;
        circuit.nextAttempt := 0;
      }
    }
  }
}
