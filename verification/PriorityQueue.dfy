/**
 The priority-queue protocol: one main queue, one retry queue, a dead-letter queue, and workers that
 acknowledge a message only after it has been handled, or republished because handling failed.

 The state is a ledger of all copies that the broker ever held, each with the place where it is now.
 A copy in flight whose replacement has been accepted by the broker but which is not yet acknowledged
 is `republished`: a crash at that point redelivers it next to its replacement.
*/
module PriorityQueue {

  datatype Priority = Urgent | High | Normal | Low

  /** An absent `retryCount` or `maxRetries` is zero here, as in the source both read as falsy. */
  datatype Message = Message(id: string, priority: Priority, retryCount: nat, maxRetries: int, readable: bool)
  {
    function Limit(): int { if maxRetries == 0 then 3 else maxRetries }
  }

  datatype QueueName = Main | Retry

  datatype Place =
    | Waiting(queue: QueueName)
    | InFlight(worker: nat, queue: QueueName, republished: bool)
    | Acked
    | DeadLetter
    | Expired
    | Rejected
    | Superseded

  datatype Copy = Copy(msg: Message, place: Place)

  /** `origin` and `delivered` are history: the messages as enqueued, and how often each was handed out. */
  datatype Broker = Broker(copies: seq<Copy>, origin: map<string, Message>, delivered: map<string, nat>)

  const EMPTY := Broker([], map[], map[])

  datatype Event =
    | Enqueue(msg: Message)
    | Deliver(k: nat, worker: nat)
    | HandledOk(k: nat)
    | HandledThenFailed(k: nat)
    | HandlingFailed(k: nat)
    | AckOriginal(k: nat)
    | Reject(k: nat)
    | Requeue(k: nat)
    | Crash(worker: nat)
    | DeadLetterExpired(k: nat)

  // ----- One atomic step ----------------------------------------------------------------------------

  /** `handleMessageFailure`: the copy that replaces a message whose handling failed. */
  function Replacement(m: Message): Copy {
    var m' := m.(retryCount := m.retryCount + 1);
    Copy(m', if m'.retryCount <= m.Limit() then Waiting(Retry) else DeadLetter)
  }

  /** A worker holds at most one unacknowledged message from each queue (prefetch one per consumer). */
  ghost predicate Free(s: Broker, worker: nat, queue: QueueName) {
    forall i :: 0 <= i < |s.copies| ==>
      var p := s.copies[i].place;
      !(p.InFlight? && p.worker == worker && p.queue == queue)
  }

  ghost predicate Possible(s: Broker, e: Event) {
    match e
    case Enqueue(m) => m.id !in s.origin
    case Deliver(k, w) =>
      k < |s.copies| && s.copies[k].place.Waiting? && Free(s, w, s.copies[k].place.queue)
    case HandledOk(k) =>
      k < |s.copies| && s.copies[k].place.InFlight? && !s.copies[k].place.republished && s.copies[k].msg.readable
    case HandledThenFailed(k) =>
      k < |s.copies| && s.copies[k].place.InFlight? && !s.copies[k].place.republished && s.copies[k].msg.readable
    case HandlingFailed(k) =>
      k < |s.copies| && s.copies[k].place.InFlight? && !s.copies[k].place.republished && s.copies[k].msg.readable
    case AckOriginal(k) => k < |s.copies| && s.copies[k].place.InFlight? && s.copies[k].place.republished
    case Reject(k) => k < |s.copies| && s.copies[k].place.InFlight?
    case Requeue(k) => k < |s.copies| && s.copies[k].place.InFlight?
    case Crash(w) => true
    case DeadLetterExpired(k) => k < |s.copies| && s.copies[k].place.DeadLetter?
  }

  function Moved(s: Broker, k: nat, p: Place): Broker
    requires k < |s.copies|
  {
    s.(copies := s.copies[k := Copy(s.copies[k].msg, p)])
  }

  function BackFrom(c: Copy, worker: nat): Copy {
    if c.place.InFlight? && c.place.worker == worker then c.(place := Waiting(c.place.queue)) else c
  }

  function Count(m: map<string, nat>, id: string): nat {
    if id in m then m[id] else 0
  }

  function Next(s: Broker, e: Event): Broker
    requires Possible(s, e)
  {
    match e
    case Enqueue(m) => s.(copies := s.copies + [Copy(m, Waiting(Main))], origin := s.origin[m.id := m])
    case Deliver(k, w) =>
      var id := s.copies[k].msg.id;
      Moved(s, k, InFlight(w, s.copies[k].place.queue, false))
        .(delivered := s.delivered[id := Count(s.delivered, id) + 1])
    case HandledOk(k) => Moved(s, k, Acked)
    case HandledThenFailed(k) =>
      var t := Moved(s, k, Acked);
      t.(copies := t.copies + [Replacement(s.copies[k].msg)])
    case HandlingFailed(k) =>
      var t := Moved(s, k, s.copies[k].place.(republished := true));
      t.(copies := t.copies + [Replacement(s.copies[k].msg)])
    case AckOriginal(k) => Moved(s, k, Superseded)
    case Reject(k) => Moved(s, k, if s.copies[k].place.republished then Superseded else Rejected)
    case Requeue(k) => Moved(s, k, Waiting(s.copies[k].place.queue))
    case Crash(w) =>
      s.(copies := seq(|s.copies|, i requires 0 <= i < |s.copies| => BackFrom(s.copies[i], w)))
    case DeadLetterExpired(k) => Moved(s, k, Expired)
  }

  /** Any list of events; one that cannot happen when its turn comes is skipped. */
  ghost function After(es: seq<Event>): Broker {
    if es == [] then EMPTY
    else
      var s, e := After(es[..|es| - 1]), es[|es| - 1];
      if Possible(s, e) then Next(s, e) else s
  }

  // ----- Where copies can be, crashes or not -------------------------------------------------------------

  /** This copy stands for its message; a superseded original and one about to be no longer do. */
  predicate Counts(c: Copy) {
    !c.place.Superseded? && !(c.place.InFlight? && c.place.republished)
  }

  function Max(a: int, b: int): int { if a < b then b else a }

  /** The retry count says where the copy stands between the first delivery and the dead-letter queue. */
  ghost predicate OnTrack(c: Copy, m: Message) {
    && c.msg == m.(retryCount := c.msg.retryCount)
    && match c.place
       case Waiting(Main) => c.msg.retryCount == m.retryCount
       case InFlight(_, Main, _) => c.msg.retryCount == m.retryCount
       case Waiting(Retry) => m.retryCount < c.msg.retryCount <= m.Limit()
       case InFlight(_, Retry, _) => m.retryCount < c.msg.retryCount <= m.Limit()
       case DeadLetter => c.msg.retryCount == Max(m.Limit(), m.retryCount) + 1
       case Expired => c.msg.retryCount == Max(m.Limit(), m.retryCount) + 1
       case _ => m.retryCount <= c.msg.retryCount <= Max(m.Limit(), m.retryCount)
  }

  ghost predicate AllOnTrack(s: Broker) {
    forall i :: 0 <= i < |s.copies| ==>
      s.copies[i].msg.id in s.origin && OnTrack(s.copies[i], s.origin[s.copies[i].msg.id])
  }

  /** A consumer holds one unacknowledged message at most. */
  ghost predicate Exclusive(s: Broker) {
    forall i, j :: 0 <= i < j < |s.copies| && s.copies[i].place.InFlight? && s.copies[j].place.InFlight? ==>
      s.copies[i].place.worker != s.copies[j].place.worker || s.copies[i].place.queue != s.copies[j].place.queue
  }

  ghost predicate Tracked(s: Broker) {
    AllOnTrack(s) && Exclusive(s) && forall id :: id in s.origin ==> s.origin[id].id == id
  }

  ghost predicate Represented(s: Broker, id: string) {
    exists i :: 0 <= i < |s.copies| && s.copies[i].msg.id == id && Counts(s.copies[i])
  }

  lemma OnTrackStep(s: Broker, e: Event)
    requires AllOnTrack(s) && Possible(s, e)
    ensures AllOnTrack(Next(s, e))
  {
    var t := Next(s, e);
    forall i | 0 <= i < |t.copies|
      ensures t.copies[i].msg.id in t.origin && OnTrack(t.copies[i], t.origin[t.copies[i].msg.id])
    {
      if i < |s.copies| { assert OnTrack(s.copies[i], s.origin[s.copies[i].msg.id]); }
      if e.HandlingFailed? { assert OnTrack(s.copies[e.k], s.origin[s.copies[e.k].msg.id]); }
    }
  }

  lemma ExclusiveStep(s: Broker, e: Event)
    requires Exclusive(s) && Possible(s, e)
    ensures Exclusive(Next(s, e))
  {
  }

  lemma TrackedStep(s: Broker, e: Event)
    requires Tracked(s) && Possible(s, e)
    ensures Tracked(Next(s, e))
  {
    OnTrackStep(s, e);
    ExclusiveStep(s, e);
  }

  lemma RepresentedStep(s: Broker, e: Event, id: string)
    requires Possible(s, e) && (Represented(s, id) || (e.Enqueue? && e.msg.id == id))
    ensures Represented(Next(s, e), id)
  {
    var t := Next(s, e);
    if Represented(s, id) {
      var i :| 0 <= i < |s.copies| && s.copies[i].msg.id == id && Counts(s.copies[i]);
      if e.HandlingFailed? && e.k == i {
        assert Counts(t.copies[|s.copies|]);
      } else {
        assert Counts(t.copies[i]);
      }
    } else {
      assert Counts(t.copies[|s.copies|]);
    }
  }

  /** No crash, requeue or rejection ever loses a message, and its copies never leave their track. */
  lemma {:induction false} NeverLost(es: seq<Event>)
    ensures Tracked(After(es))
    ensures forall i :: 0 <= i < |es| && es[i].Enqueue? ==> es[i].msg.id in After(es).origin
    ensures forall id :: id in After(es).origin ==> Represented(After(es), id)
  {
    if es != [] {
      var before, e := es[..|es| - 1], es[|es| - 1];
      NeverLost(before);
      var s := After(before);
      assert forall i :: 0 <= i < |before| ==> before[i] == es[i];
      if Possible(s, e) {
        TrackedStep(s, e);
        forall id | id in After(es).origin ensures Represented(After(es), id) {
          RepresentedStep(s, e, id);
        }
      }
    }
  }

  // ----- Without crashes: exactly one copy and a bounded number of deliveries ----------------------------

  /** No crash, no requeue, and nothing that fails after an acknowledgement. */
  predicate Undisturbed(e: Event) {
    !e.Crash? && !e.Requeue? && !e.HandledThenFailed?
  }

  ghost predicate Calm(es: seq<Event>) {
    forall e :: e in es ==> Undisturbed(e)
  }

  ghost predicate Single(s: Broker) {
    forall i, j :: 0 <= i < j < |s.copies| && Counts(s.copies[i]) && Counts(s.copies[j]) ==>
      s.copies[i].msg.id != s.copies[j].msg.id
  }

  /** How often the message must have been handed out for this copy to be where it is. */
  function Handed(c: Copy, m: Message): int {
    c.msg.retryCount - m.retryCount
    + if c.place.InFlight? || c.place.Acked? || c.place.Rejected? then 1 else 0
  }

  ghost predicate CountedDeliveries(s: Broker) {
    && (forall i :: 0 <= i < |s.copies| && Counts(s.copies[i]) ==>
          s.copies[i].msg.id in s.origin
          && Count(s.delivered, s.copies[i].msg.id) == Handed(s.copies[i], s.origin[s.copies[i].msg.id]))
    && (forall id :: id in s.delivered ==> id in s.origin)
  }

  lemma SingleStep(s: Broker, e: Event)
    requires Tracked(s) && Single(s) && Possible(s, e) && Undisturbed(e)
    ensures Single(Next(s, e))
  {
  }

  lemma CountedStep(s: Broker, e: Event)
    requires Tracked(s) && Single(s) && CountedDeliveries(s) && Possible(s, e) && Undisturbed(e)
    ensures CountedDeliveries(Next(s, e))
  {
  }

  lemma {:induction false} CalmKeeps(es: seq<Event>)
    requires Calm(es)
    ensures Single(After(es)) && CountedDeliveries(After(es))
  {
    if es != [] {
      var before, e := es[..|es| - 1], es[|es| - 1];
      assert e in es;
      CalmKeeps(before);
      NeverLost(before);
      if Possible(After(before), e) {
        SingleStep(After(before), e);
        CountedStep(After(before), e);
      }
    }
  }

  lemma DeliveriesBounded(s: Broker, id: string)
    requires Tracked(s) && CountedDeliveries(s) && id in s.origin && Represented(s, id)
    ensures var m := s.origin[id];
      Count(s.delivered, id) <= Max((if m.maxRetries == 0 then 3 else m.maxRetries) - m.retryCount, 0) + 1
  {
    var i :| 0 <= i < |s.copies| && s.copies[i].msg.id == id && Counts(s.copies[i]);
    assert OnTrack(s.copies[i], s.origin[id]);
  }

  /**
   In a calm run every enqueued message has exactly one copy, and it is handed to a worker
   at most once more than its limit allows retries.
  */
  lemma CalmRun(es: seq<Event>)
    requires Calm(es)
    ensures var s := After(es);
      && Single(s) && CountedDeliveries(s)
      && (forall id :: id in s.origin ==>
            var m := s.origin[id];
            Count(s.delivered, id) <= Max((if m.maxRetries == 0 then 3 else m.maxRetries) - m.retryCount, 0) + 1)
  {
    CalmKeeps(es);
    NeverLost(es);
    forall id | id in After(es).origin { DeliveriesBounded(After(es), id); }
  }

  // ----- How a copy ends ------------------------------------------------------------------------------------------

  /** Event number `i` of the run took place; otherwise it was skipped. */
  ghost predicate Happened(es: seq<Event>, i: nat, e: Event) {
    i < |es| && es[i] == e && Possible(After(es[..i]), e)
  }

  ghost predicate HandledAt(es: seq<Event>, i: nat, k: nat) {
    Happened(es, i, HandledOk(k)) || Happened(es, i, HandledThenFailed(k))
  }

  /** Rejected at a moment at which the broker held no replacement that had been sent since the delivery. */
  ghost predicate RejectedAt(es: seq<Event>, i: nat, k: nat) {
    Happened(es, i, Reject(k)) && !After(es[..i]).copies[k].place.republished
  }

  ghost predicate ReplacedAt(es: seq<Event>, i: nat, k: nat) {
    || Happened(es, i, AckOriginal(k))
    || (Happened(es, i, Reject(k)) && After(es[..i]).copies[k].place.republished)
  }

  ghost predicate ExpiredAt(es: seq<Event>, i: nat, k: nat) {
    Happened(es, i, DeadLetterExpired(k))
  }

  /** The copy has ended in this way once the event has happened, and not before. */
  lemma EndStep(s: Broker, e: Event, k: nat)
    requires Possible(s, e) && k < |s.copies|
    ensures var p, p' := s.copies[k].place, Next(s, e).copies[k].place;
      && (p'.Acked? <==> p.Acked? || e == HandledOk(k) || e == HandledThenFailed(k))
      && (p'.Rejected? <==> p.Rejected? || (e == Reject(k) && !p.republished))
      && (p'.Superseded? <==> p.Superseded? || e == AckOriginal(k) || (e == Reject(k) && p.republished))
      && (p'.Expired? <==> p.Expired? || e == DeadLetterExpired(k))
  {
  }

  ghost predicate Ends(es: seq<Event>, k: nat, p: Place) {
    && (p.Acked? <==> exists i :: HandledAt(es, i, k))
    && (p.Rejected? <==> exists i :: RejectedAt(es, i, k))
    && (p.Superseded? <==> exists i :: ReplacedAt(es, i, k))
    && (p.Expired? <==> exists i :: ExpiredAt(es, i, k))
  }

  lemma SameBefore(es: seq<Event>, i: nat, k: nat)
    requires i < |es| - 1
    ensures var before := es[..|es| - 1];
      && HandledAt(es, i, k) == HandledAt(before, i, k) && RejectedAt(es, i, k) == RejectedAt(before, i, k)
      && ReplacedAt(es, i, k) == ReplacedAt(before, i, k) && ExpiredAt(es, i, k) == ExpiredAt(before, i, k)
  {
    var before := es[..|es| - 1];
    assert before[i] == es[i] && before[..i] == es[..i];
  }

  lemma HandledNext(es: seq<Event>, k: nat)
    requires es != []
    ensures var before := es[..|es| - 1];
      (exists i :: HandledAt(es, i, k)) <==> (exists i :: HandledAt(before, i, k)) || HandledAt(es, |es| - 1, k)
  {
    var before := es[..|es| - 1];
    forall i: nat | i < |before| { SameBefore(es, i, k); }
    if i :| HandledAt(before, i, k) { assert HandledAt(es, i, k); }
  }

  lemma RejectedNext(es: seq<Event>, k: nat)
    requires es != []
    ensures var before := es[..|es| - 1];
      (exists i :: RejectedAt(es, i, k)) <==> (exists i :: RejectedAt(before, i, k)) || RejectedAt(es, |es| - 1, k)
  {
    var before := es[..|es| - 1];
    forall i: nat | i < |before| { SameBefore(es, i, k); }
    if i :| RejectedAt(before, i, k) { assert RejectedAt(es, i, k); }
  }

  lemma ReplacedNext(es: seq<Event>, k: nat)
    requires es != []
    ensures var before := es[..|es| - 1];
      (exists i :: ReplacedAt(es, i, k)) <==> (exists i :: ReplacedAt(before, i, k)) || ReplacedAt(es, |es| - 1, k)
  {
    var before := es[..|es| - 1];
    forall i: nat | i < |before| { SameBefore(es, i, k); }
    if i :| ReplacedAt(before, i, k) { assert ReplacedAt(es, i, k); }
  }

  lemma ExpiredNext(es: seq<Event>, k: nat)
    requires es != []
    ensures var before := es[..|es| - 1];
      (exists i :: ExpiredAt(es, i, k)) <==> (exists i :: ExpiredAt(before, i, k)) || ExpiredAt(es, |es| - 1, k)
  {
    var before := es[..|es| - 1];
    forall i: nat | i < |before| { SameBefore(es, i, k); }
    if i :| ExpiredAt(before, i, k) { assert ExpiredAt(es, i, k); }
  }

  lemma EndsNext(es: seq<Event>, k: nat, p: Place, p': Place)
    requires es != [] && Ends(es[..|es| - 1], k, p)
    requires var i := |es| - 1;
      && (p'.Acked? <==> p.Acked? || HandledAt(es, i, k)) && (p'.Rejected? <==> p.Rejected? || RejectedAt(es, i, k))
      && (p'.Superseded? <==> p.Superseded? || ReplacedAt(es, i, k))
      && (p'.Expired? <==> p.Expired? || ExpiredAt(es, i, k))
    ensures Ends(es, k, p')
  {
    HandledNext(es, k);
    RejectedNext(es, k);
    ReplacedNext(es, k);
    ExpiredNext(es, k);
  }

  /** Nothing has happened to a copy that the broker does not hold yet. */
  lemma {:induction false} NothingYet(es: seq<Event>, k: nat)
    requires k >= |After(es).copies|
    ensures Ends(es, k, Waiting(Main))
  {
    if es != [] {
      NothingYet(es[..|es| - 1], k);
      EndsNext(es, k, Waiting(Main), Waiting(Main));
    }
  }

  /**
   A copy is acknowledged exactly if its handling has succeeded, rejected exactly if it was rejected without
   a replacement, superseded exactly if it gave way to one, and expired exactly if it aged out.
  */
  lemma {:induction false} EndsExactly(es: seq<Event>, k: nat)
    requires k < |After(es).copies|
    ensures Ends(es, k, After(es).copies[k].place)
  {
    if es != [] {
      var before, e := es[..|es| - 1], es[|es| - 1];
      var s := After(before);
      var p := if k < |s.copies| then s.copies[k].place else Waiting(Main);
      if k < |s.copies| { EndsExactly(before, k); } else { NothingYet(before, k); }
      if Possible(s, e) && k < |s.copies| { EndStep(s, e, k); }
      EndsNext(es, k, p, After(es).copies[k].place);
    }
  }

  /** The replacement was sent at event `i`, and the copy has not been delivered again since. */
  ghost predicate SentAt(es: seq<Event>, i: nat, k: nat) {
    Happened(es, i, HandlingFailed(k)) && forall j, w :: i < j < |es| ==> !Happened(es, j, Deliver(k, w))
  }

  lemma SentBefore(es: seq<Event>, i: nat, k: nat)
    requires i < |es| - 1
    ensures SentAt(es, i, k)
       <==> SentAt(es[..|es| - 1], i, k) && forall w :: !Happened(es, |es| - 1, Deliver(k, w))
  {
    var before := es[..|es| - 1];
    forall j, e | 0 <= j < |before| ensures Happened(es, j, e) == Happened(before, j, e) {
      assert before[j] == es[j] && before[..j] == es[..j];
    }
  }

  lemma FlightStep(s: Broker, e: Event, k: nat)
    requires Possible(s, e) && k < |Next(s, e).copies| && Next(s, e).copies[k].place.InFlight?
    ensures e.Deliver? && e.k == k ==> !Next(s, e).copies[k].place.republished
    ensures e == HandlingFailed(k) ==> Next(s, e).copies[k].place.republished
    ensures !(e.Deliver? && e.k == k) && e != HandlingFailed(k) ==>
      k < |s.copies| && Next(s, e).copies[k] == s.copies[k]
  {
  }

  /** A copy in flight counts as republished exactly if its replacement was sent since its last delivery. */
  lemma {:induction false} RepublishedExactly(es: seq<Event>, k: nat)
    requires k < |After(es).copies| && After(es).copies[k].place.InFlight?
    ensures After(es).copies[k].place.republished <==> exists i :: SentAt(es, i, k)
  {
    var before, e := es[..|es| - 1], es[|es| - 1];
    var s := After(before);
    forall i: nat | i < |before| { SentBefore(es, i, k); }
    if Possible(s, e) { FlightStep(s, e, k); }
    if Possible(s, e) && e == HandlingFailed(k) {
      assert SentAt(es, |before|, k);
    } else if Possible(s, e) && e.Deliver? && e.k == k {
      assert Happened(es, |before|, Deliver(k, e.worker));
    } else {
      RepublishedExactly(before, k);
      if i :| SentAt(before, i, k) { assert SentAt(es, i, k); }
    }
  }

  /** A crash returns what the worker held to where it came from, unacknowledged, and touches nothing else. */
  lemma CrashReleases(s: Broker, worker: nat)
    ensures var t := Next(s, Crash(worker));
      && |t.copies| == |s.copies| && t.origin == s.origin && t.delivered == s.delivered
      && forall i :: 0 <= i < |s.copies| ==>
           var p := s.copies[i].place;
           && !(t.copies[i].place.InFlight? && t.copies[i].place.worker == worker)
           && t.copies[i] == if p.InFlight? && p.worker == worker then Copy(s.copies[i].msg, Waiting(p.queue))
                             else s.copies[i]
  {
  }

  // ----- The service code ------------------------------------------------------------------------------------

  /** `MetricsFailed`: the notification was sent and acknowledged, and recording that has thrown. */
  datatype Outcome = Sent | SendFailed | RepublishFailed | AckFailed | MetricsFailed

  datatype WorkerStatus = Idle | Busy

  class PriorityQueueService {
    var broker: Broker
    var workerStatus: map<nat, WorkerStatus>

    constructor ()
      ensures broker == EMPTY && workerStatus == map[]
    {
      broker, workerStatus := EMPTY, map[];
    }

    /** The message may have been sent even when the caller is told of a failure: closing the channel can fail. */
    method EnqueueNotification(message: Message, sends: bool, closes: bool) returns (ok: bool)
      requires message.id !in broker.origin
      modifies this`broker
      ensures ok == (sends && closes)
      ensures broker.copies == if sends then old(broker).copies + [Copy(message, Waiting(Main))] else old(broker).copies
      ensures broker == if sends then Next(old(broker), Enqueue(message)) else old(broker)
    {
      if !sends { return false; }
      broker := broker.(copies := broker.copies + [Copy(message, Waiting(Main))],
                        origin := broker.origin[message.id := message]);
      return closes;
    }

    /** A consumer callback receives copy `k`. */
    method ReceiveMessage(k: nat, worker: nat)
      requires Possible(broker, Deliver(k, worker))
      modifies this
      ensures var c := old(broker).copies[k];
        broker.copies == old(broker).copies[k := Copy(c.msg, InFlight(worker, c.place.queue, false))]
      ensures broker == Next(old(broker), Deliver(k, worker))
      ensures workerStatus == old(workerStatus)[worker := Busy]
    {
      workerStatus := workerStatus[worker := Busy];
      var message, queue := broker.copies[k].msg, broker.copies[k].place.queue;
      var count := if message.id in broker.delivered then broker.delivered[message.id] else 0;
      Settle(k, InFlight(worker, queue, false));
      broker := broker.(delivered := broker.delivered[message.id := count + 1]);
    }

    /** `processMessage` after the handler has settled, when no crash interrupts it. */
    method ProcessMessage(k: nat, outcome: Outcome)
      requires k < |broker.copies| && broker.copies[k].place.InFlight? && !broker.copies[k].place.republished
      modifies this
      ensures workerStatus == old(workerStatus)[old(broker).copies[k].place.worker := Idle]
      ensures var before, m := old(broker).copies, old(broker).copies[k].msg;
        var again := Copy(m.(retryCount := m.retryCount + 1),
                          if m.retryCount + 1 <= (if m.maxRetries == 0 then 3 else m.maxRetries) then Waiting(Retry)
                          else DeadLetter);
        broker.copies ==
          if !m.readable || outcome == RepublishFailed then before[k := Copy(m, Rejected)]
          else if outcome == Sent then before[k := Copy(m, Acked)]
          else if outcome == MetricsFailed then before[k := Copy(m, Acked)] + [again]
          else before[k := Copy(m, Superseded)] + [again]
      ensures broker == Processed(old(broker), k, outcome)
    {
      var message, worker := broker.copies[k].msg, broker.copies[k].place.worker;
      if message.readable && (outcome == Sent || outcome == MetricsFailed) {
        Settle(k, Acked);
        if outcome == MetricsFailed { HandleMessageFailure(k, outcome); }
      } else {
        HandleMessageFailure(k, outcome);
      }
      workerStatus := workerStatus[worker := Idle];
    }

    /** Also called for a message that is acknowledged already; a second acknowledgement moves nothing. */
    method HandleMessageFailure(k: nat, outcome: Outcome)
      requires k < |broker.copies|
      requires if broker.copies[k].place.Acked? then broker.copies[k].msg.readable && outcome == MetricsFailed
               else broker.copies[k].place.InFlight? && !broker.copies[k].place.republished
                    && (broker.copies[k].msg.readable ==> outcome != Sent && outcome != MetricsFailed)
      modifies this`broker
      ensures old(broker).copies[k].place.Acked? ==>
        broker == old(broker).(copies := old(broker).copies + [Replacement(old(broker).copies[k].msg)])
      ensures var before, m := old(broker).copies, old(broker).copies[k].msg;
        old(broker).copies[k].place.InFlight? ==>
          if !m.readable || outcome == RepublishFailed then broker.copies == before[k := Copy(m, Rejected)]
          else |broker.copies| == |before| + 1 && broker.copies[..|before|] == before[k := Copy(m, Superseded)]
      ensures old(broker).copies[k].place.InFlight? ==> broker == Processed(old(broker), k, outcome)
    {
      var message, acked := broker.copies[k].msg, broker.copies[k].place.Acked?;
      if !message.readable || outcome == RepublishFailed {
        Settle(k, Rejected);
        return;
      }
      var retryCount := message.retryCount + 1;
      var maxRetries := if message.maxRetries == 0 then 3 else message.maxRetries;
      ghost var start := broker;
      if !acked { Settle(k, broker.copies[k].place.(republished := true)); }
      if retryCount <= maxRetries {
        broker := broker.(copies := broker.copies + [Copy(message.(retryCount := retryCount), Waiting(Retry))]);
      } else {
        broker := broker.(copies := broker.copies + [Copy(message.(retryCount := retryCount), DeadLetter)]);
      }
      assert !acked ==> broker == Next(start, HandlingFailed(k));
      if !acked { Settle(k, Superseded); }
    }

    method Settle(k: nat, place: Place)
      requires k < |broker.copies|
      modifies this`broker
      ensures broker == Moved(old(broker), k, place)
    {
      broker := broker.(copies := broker.copies[k := Copy(broker.copies[k].msg, place)]);
    }
  }

  /** What handling copy `k` amounts to, in protocol steps; a failed acknowledgement turns into a reject. */
  ghost function Processed(s: Broker, k: nat, outcome: Outcome): Broker
    requires k < |s.copies| && s.copies[k].place.InFlight? && !s.copies[k].place.republished
  {
    if !s.copies[k].msg.readable || outcome == RepublishFailed then Next(s, Reject(k))
    else if outcome == Sent then Next(s, HandledOk(k))
    else if outcome == MetricsFailed then Next(s, HandledThenFailed(k))
    else if outcome == SendFailed then Next(Next(s, HandlingFailed(k)), AckOriginal(k))
    else Next(Next(s, HandlingFailed(k)), Reject(k))
  }
}
