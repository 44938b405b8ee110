/**
 The breaker of the queue monitor.  It differs from the one around the Novu client: successes do not
 reset the failure count while it is closed, an open breaker moves on with the next success whatever
 the time is, and it takes three successes in a row to close.
*/
module QueueMonitoring {

  const FAILURE_THRESHOLD := 5
  const SUCCESS_THRESHOLD := 3

  datatype State = Closed | Open | HalfOpen

  datatype Time = Unset | At(ms: int)

  datatype Breaker = Breaker(
    state: State, failureCount: nat, successCount: nat, lastFailureTime: Time, nextAttemptTime: Time)

  const FRESH := Breaker(Closed, 0, 0, Unset, Unset)

  datatype Event = Success(now: int) | Failure(now: int) | Reset

  function Next(b: Breaker, e: Event): Breaker {
    match e
    case Success(now) =>
      (match b.state
       case Closed => b
       case Open => b.(state := HalfOpen, successCount := 1, nextAttemptTime := At(now + 30000))
       case HalfOpen =>
         if b.successCount + 1 >= SUCCESS_THRESHOLD
         then b.(state := Closed, failureCount := 0, successCount := 0)
         else b.(successCount := b.successCount + 1))
    case Failure(now) =>
      var c := b.(failureCount := b.failureCount + 1, lastFailureTime := At(now));
      if (b.state.Closed? && c.failureCount >= FAILURE_THRESHOLD) || b.state.HalfOpen?
      then c.(state := Open, nextAttemptTime := At(now + 60000))
      else c
    case Reset => FRESH
  }

  function Run(es: seq<Event>): Breaker {
    if es == [] then FRESH else Next(Run(es[..|es| - 1]), es[|es| - 1])
  }

  // ----- The history since the breaker was last closed --------------------------------------------------

  function Failures(es: seq<Event>): nat {
    if es == [] then 0 else Failures(es[..|es| - 1]) + if es[|es| - 1].Failure? then 1 else 0
  }

  /** The length of the row of successes that ends the list. */
  function Row(es: seq<Event>): nat {
    if es == [] || !es[|es| - 1].Success? then 0 else 1 + Row(es[..|es| - 1])
  }

  /** Event number `i` closes the breaker: a reset, or the success that ends an open period. */
  ghost predicate Closes(es: seq<Event>, i: nat)
    requires i < |es|
  {
    es[i].Reset? || (!Run(es[..i]).state.Closed? && Run(es[..i + 1]).state.Closed?)
  }

  /** No closing event in `es` at or after position `k`, and position `k` is one if it is not the start. */
  ghost predicate LastClosed(es: seq<Event>, k: nat) {
    && k <= |es|
    && (k > 0 ==> Closes(es, k - 1))
    && (forall i :: k <= i < |es| ==> !Closes(es, i))
  }

  /**
   For every history: the breaker is closed exactly while fewer than five failures have happened since
   it was last closed or reset, however many successes lie between.  When it is not closed, it is open
   or half-open according to the current row of successes, which is shorter than three.
  */
  lemma {:induction false} StateFollowsHistory(es: seq<Event>) returns (k: nat)
    ensures LastClosed(es, k)
    ensures var tail, b := es[k..], Run(es);
      && b.failureCount == Failures(tail)
      && (b.state.Closed? <==> Failures(tail) < FAILURE_THRESHOLD)
      && (b.state.Closed? ==> b.successCount == 0)
      && (!b.state.Closed? ==> Row(tail) < SUCCESS_THRESHOLD)
      && (b.state.Open? ==> Row(tail) == 0)
      && (b.state.HalfOpen? ==> Row(tail) == b.successCount > 0)
  {
    if es == [] {
      k := 0;
    } else {
      var before, e := es[..|es| - 1], es[|es| - 1];
      var j := StateFollowsHistory(before);
      assert es[..|before|] == before && es[..|es|] == es;
      forall i | 0 <= i < |before| ensures Closes(es, i) == Closes(before, i) {
        assert es[..i] == before[..i] && es[..i + 1] == before[..i + 1];
      }
      if Closes(es, |before|) {
        k := |es|;
      } else {
        k := j;
        assert es[k..][..|es[k..]| - 1] == before[k..];
      }
    }
  }

  /** The breaker opens with exactly the fifth failure since it was last closed. */
  lemma OpensOnFifthFailure(es: seq<Event>, e: Event, k: nat)
    requires LastClosed(es, k) && Run(es).state.Closed?
    ensures Run(es + [e]).state.Open? <==> e.Failure? && Failures(es[k..]) == 4
    ensures !Run(es + [e]).state.Closed? ==> Run(es + [e]).state.Open?
  {
    var j := StateFollowsHistory(es);
    LastClosedUnique(es, j, k);
    assert (es + [e])[..|es|] == es;
  }

  /** It closes by itself with exactly the third success in a row. */
  lemma ClosesOnThirdSuccess(es: seq<Event>, e: Event, k: nat)
    requires LastClosed(es, k) && !Run(es).state.Closed? && !e.Reset?
    ensures Run(es + [e]).state.Closed? <==> Row(es[k..] + [e]) == 3
  {
    var j := StateFollowsHistory(es);
    LastClosedUnique(es, j, k);
    assert (es + [e])[..|es|] == es;
    assert (es[k..] + [e])[..|es[k..]|] == es[k..];
  }

  lemma LastClosedUnique(es: seq<Event>, j: nat, k: nat)
    requires LastClosed(es, j) && LastClosed(es, k)
    ensures j == k
  {
  }

  /** The timestamps of one event: failures are stamped, an opening sets a minute, a probe half of one. */
  lemma TimesOf(b: Breaker, e: Event)
    ensures var c := Next(b, e);
      && (e.Failure? ==> c.lastFailureTime == At(e.now))
      && (e.Success? ==> c.lastFailureTime == b.lastFailureTime)
      && (e.Reset? ==> c.lastFailureTime == Unset && c.nextAttemptTime == Unset)
      && (e.Failure? && !b.state.Open? && c.state.Open? ==> c.nextAttemptTime == At(e.now + 60_000))
      && (e.Success? && b.state.Open? ==> c.state.HalfOpen? && c.nextAttemptTime == At(e.now + 30_000))
      && (!e.Reset? && (b.state == c.state || c.state.Closed?) ==> c.nextAttemptTime == b.nextAttemptTime)
  {
  }

  // ----- The service code ----------------------------------------------------------------------------------

  class QueueMonitoringService {
    var circuitBreakerStates: map<string, Breaker>

    /** A queue without an entry gets a fresh breaker. */
    function Of(queueName: string): Breaker
      reads this
    {
      if queueName in circuitBreakerStates then circuitBreakerStates[queueName] else FRESH
    }

    constructor ()
      ensures forall q :: q in circuitBreakerStates ==> circuitBreakerStates[q] == FRESH
    {
      circuitBreakerStates := map[
        "notification.high" := FRESH, "notification.normal" := FRESH, "notification.low" := FRESH,
        "notification.retry" := FRESH, "notification.dlq.new" := FRESH];
    }

    method UpdateCircuitBreaker(queueName: string, success: bool, now: int)
      modifies this
      ensures circuitBreakerStates == old(circuitBreakerStates)[queueName :=
                Next(old(Of(queueName)), if success then Success(now) else Failure(now))]
    {
      var b := Of(queueName);
      if success {
        if b.state == HalfOpen {
          b := b.(successCount := b.successCount + 1);
          if b.successCount >= SUCCESS_THRESHOLD {
            b := b.(state := Closed, failureCount := 0, successCount := 0);
          }
        } else if b.state == Open {
          b := b.(state := HalfOpen, successCount := 1, nextAttemptTime := At(now + 30000));
        }
      } else {
        b := b.(failureCount := b.failureCount + 1, lastFailureTime := At(now));
        if b.state == Closed && b.failureCount >= FAILURE_THRESHOLD {
          b := b.(state := Open, nextAttemptTime := At(now + 60000));
        } else if b.state == HalfOpen {
          b := b.(state := Open, nextAttemptTime := At(now + 60000));
        }
      }
      circuitBreakerStates := circuitBreakerStates[queueName := b];
    }

    method ResetCircuitBreaker(queueName: string)
      modifies this
      ensures circuitBreakerStates == old(circuitBreakerStates)[queueName := Next(old(Of(queueName)), Reset)]
    {
      circuitBreakerStates := circuitBreakerStates[queueName := Breaker(Closed, 0, 0, Unset, Unset)];
    }
  }
}
