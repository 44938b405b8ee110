/**
 The in-memory queue of Novu subscriber tasks: batch processor, retry budget, breaker and metrics.

 `Step` is the reaction of the service to one atomic event, `Run` to any interleaving of them.
 Between two `await`s nothing else runs, so the events are: a task arrives; the 200 ms timer ticks
 and perhaps opens a batch; one task of the batch succeeds or fails; the batch promise settles; the
 breaker timer fires.  A failed task stays where it is in the queue.
*/
module NovuQueue {
  import opened Wrappers

  const CONCURRENCY := 3
  const MAX_RETRIES := 5
  const CIRCUIT_BREAKER_THRESHOLD := 10

  datatype TaskType = Create | Update | Delete

  datatype Task = Task(id: string, kind: TaskType, createdAt: int, attempts: nat)

  datatype Metrics = Metrics(
    totalProcessed: nat, totalFailed: nat, totalRetried: nat, averageProcessingTime: real,
    createCount: nat, updateCount: nat, deleteCount: nat)

  const NO_METRICS := Metrics(0, 0, 0, 0.0, 0, 0, 0)

  datatype Queue = Queue(
    queue: seq<Task>, processing: bool, running: set<string>, metrics: Metrics,
    novuFailureCount: nat, breakerOpen: bool)

  datatype Event =
    | Enqueue(id: string, kind: TaskType, now: int)
    | Tick
    | Succeeded(id: string, duration: int)
    | Failed(id: string, breakerError: bool)
    | BatchSettled
    | BreakerReset

  // ----- Sequences of tasks and ids ------------------------------------------------------------

  function Ids(q: seq<Task>): seq<string> {
    if q == [] then [] else [q[0].id] + Ids(q[1..])
  }

  function IdSet(q: seq<Task>): set<string> {
    if q == [] then {} else {q[0].id} + IdSet(q[1..])
  }

  ghost predicate Distinct(ids: seq<string>) {
    forall i, j :: 0 <= i < j < |ids| ==> ids[i] != ids[j]
  }

  ghost predicate DistinctTasks(q: seq<Task>) {
    q != [] ==> q[0].id !in IdSet(q[1..]) && DistinctTasks(q[1..])
  }

  ghost predicate Fresh(q: seq<Task>) {
    q != [] ==> q[0].attempts < MAX_RETRIES && Fresh(q[1..])
  }

  function Lookup(q: seq<Task>, id: string): Task
    requires id in IdSet(q)
  {
    if q[0].id == id then q[0] else Lookup(q[1..], id)
  }

  /** The first task with the id leaves; the others keep their places. */
  function Remove(q: seq<Task>, id: string): seq<Task> {
    if q == [] then [] else if q[0].id == id then q[1..] else [q[0]] + Remove(q[1..], id)
  }

  /** The first task with the id has used one more attempt. */
  function Retried(q: seq<Task>, id: string): seq<Task> {
    if q == [] then []
    else if q[0].id == id then [q[0].(attempts := q[0].attempts + 1)] + q[1..]
    else [q[0]] + Retried(q[1..], id)
  }

  function Waiting(q: seq<Task>, running: set<string>): seq<Task> {
    if q == [] then []
    else if q[0].id in running then Waiting(q[1..], running)
    else [q[0]] + Waiting(q[1..], running)
  }

  // ----- One atomic step -----------------------------------------------------------------------

  /** The tasks a batch would start now. */
  function Picks(s: Queue): seq<Task> {
    var waiting := Waiting(s.queue, s.running);
    var slots := CONCURRENCY - |s.running|;
    if slots <= 0 then [] else if slots <= |waiting| then waiting[..slots] else waiting
  }

  function CountSuccess(m: Metrics, kind: TaskType, duration: int): Metrics {
    var n := m.totalProcessed + 1;
    var m' := m.(totalProcessed := n,
                 averageProcessingTime := (m.averageProcessingTime * (n - 1) as real + duration as real) / n as real);
    match kind
    case Create => m'.(createCount := m.createCount + 1)
    case Update => m'.(updateCount := m.updateCount + 1)
    case Delete => m'.(deleteCount := m.deleteCount + 1)
  }

  function CountFailure(m: Metrics): Metrics {
    m.(totalFailed := m.totalFailed + 1)
  }

  function HandleFailure(s: Queue, task: Task, breakerError: bool): Queue {
    if breakerError then
      s.(queue := Remove(s.queue, task.id), metrics := CountFailure(s.metrics))
    else
      var s1 := s.(novuFailureCount := s.novuFailureCount + 1);
      var s2 := if task.attempts + 1 >= MAX_RETRIES
                then s1.(queue := Remove(s.queue, task.id), metrics := CountFailure(s.metrics))
                else s1.(queue := Retried(s.queue, task.id),
                         metrics := s.metrics.(totalRetried := s.metrics.totalRetried + 1));
      s2.(breakerOpen := s.breakerOpen || s1.novuFailureCount >= CIRCUIT_BREAKER_THRESHOLD)
  }

  /** Events that cannot happen in a state (a task completes that is not running) leave it alone. */
  function Step(s: Queue, e: Event): Queue {
    match e
    case Enqueue(id, kind, now) => s.(queue := s.queue + [Task(id, kind, now, 0)])
    case Tick =>
      if s.breakerOpen || s.queue == [] || s.processing || Picks(s) == [] then s
      else s.(processing := true, running := s.running + IdSet(Picks(s)))
    case Succeeded(id, duration) =>
      if id !in s.running || id !in IdSet(s.queue) then s
      else s.(queue := Remove(s.queue, id), running := s.running - {id}, novuFailureCount := 0,
              metrics := CountSuccess(s.metrics, Lookup(s.queue, id).kind, duration))
    case Failed(id, breakerError) =>
      if id !in s.running || id !in IdSet(s.queue) then s
      else HandleFailure(s, Lookup(s.queue, id), breakerError).(running := s.running - {id})
    case BatchSettled => if s.running == {} then s.(processing := false) else s
    case BreakerReset => if s.breakerOpen then s.(breakerOpen := false, novuFailureCount := 0) else s
  }

  function Run(s: Queue, es: seq<Event>): Queue {
    if es == [] then s else Step(Run(s, es[..|es| - 1]), es[|es| - 1])
  }

  /** What a start of the service leaves: restored tasks, nothing in progress. */
  function Started(tasks: seq<Task>, metrics: Metrics): Queue {
    Queue(tasks, false, {}, metrics, 0, false)
  }

  ghost predicate Restorable(tasks: seq<Task>) {
    DistinctTasks(tasks) && Fresh(tasks)
  }

  /** The ids that ever entered the queue, in order: first the restored ones. */
  function Arrivals(tasks: seq<Task>, es: seq<Event>): seq<string> {
    if es == [] then Ids(tasks)
    else
      var before, e := Arrivals(tasks, es[..|es| - 1]), es[|es| - 1];
      if e.Enqueue? then before + [e.id] else before
  }

  // ----- What every interleaving keeps -----------------------------------------------------------

  ghost predicate Inv(s: Queue) {
    && DistinctTasks(s.queue)
    && s.running <= IdSet(s.queue)
    && |s.running| <= CONCURRENCY
    && (s.running != {} ==> s.processing)
    && Fresh(s.queue)
    && s.novuFailureCount + |s.running| <= CIRCUIT_BREAKER_THRESHOLD + CONCURRENCY - 1
    && (!s.breakerOpen ==> s.novuFailureCount < CIRCUIT_BREAKER_THRESHOLD)
  }

  lemma {:induction false} IdsLength(q: seq<Task>)
    ensures |Ids(q)| == |q|
  {
    if q != [] { IdsLength(q[1..]); }
  }

  lemma {:induction false} IdSetIsIds(q: seq<Task>)
    ensures forall x :: x in IdSet(q) <==> x in Ids(q)
  {
    if q != [] { IdSetIsIds(q[1..]); }
  }

  lemma {:induction false} RemoveFacts(q: seq<Task>, id: string)
    requires DistinctTasks(q) && id in IdSet(q)
    ensures |Remove(q, id)| == |q| - 1 && DistinctTasks(Remove(q, id))
    ensures IdSet(Remove(q, id)) == IdSet(q) - {id}
    ensures Fresh(q) ==> Fresh(Remove(q, id))
  {
    if q[0].id != id { RemoveFacts(q[1..], id); }
  }

  lemma {:induction false} RetriedFacts(q: seq<Task>, id: string)
    requires DistinctTasks(q) && id in IdSet(q)
    ensures Ids(Retried(q, id)) == Ids(q) && IdSet(Retried(q, id)) == IdSet(q) && DistinctTasks(Retried(q, id))
    ensures Lookup(q, id).id == id
    ensures Fresh(q) && Lookup(q, id).attempts + 1 < MAX_RETRIES ==> Fresh(Retried(q, id))
  {
    if q[0].id != id { RetriedFacts(q[1..], id); }
  }

  lemma {:induction false} NobodyRunning(q: seq<Task>)
    ensures Waiting(q, {}) == q
  {
    if q != [] { NobodyRunning(q[1..]); }
  }

  lemma {:induction false} IdSetSize(q: seq<Task>)
    ensures |IdSet(q)| <= |q|
  {
    if q != [] {
      IdSetSize(q[1..]);
      assert IdSet(q) == {q[0].id} + IdSet(q[1..]);
    }
  }

  /** With no batch open, a batch takes the front of the queue. */
  lemma PicksAreTheFront(s: Queue)
    requires s.running == {}
    ensures Picks(s) == s.queue[..if CONCURRENCY <= |s.queue| then CONCURRENCY else |s.queue|]
    ensures IdSet(Picks(s)) <= IdSet(s.queue) && |IdSet(Picks(s))| <= CONCURRENCY
  {
    NobodyRunning(s.queue);
    FrontIds(s.queue, if CONCURRENCY <= |s.queue| then CONCURRENCY else |s.queue|);
  }

  lemma FrontIds(q: seq<Task>, n: nat)
    requires n <= |q|
    ensures IdSet(q[..n]) <= IdSet(q) && |IdSet(q[..n])| <= n
  {
    IdSetSize(q[..n]);
    IdsConcat(q[..n], q[n..]);
    assert q == q[..n] + q[n..];
  }

  lemma IdsConcat(p: seq<Task>, q: seq<Task>)
    ensures IdSet(p + q) == IdSet(p) + IdSet(q) && Ids(p + q) == Ids(p) + Ids(q)
  {
    IdSetConcat(p, q);
    IdSeqConcat(p, q);
  }

  lemma {:induction false} IdSetConcat(p: seq<Task>, q: seq<Task>)
    ensures IdSet(p + q) == IdSet(p) + IdSet(q)
  {
    if p == [] {
      assert p + q == q;
    } else {
      IdSetConcat(p[1..], q);
      assert (p + q)[0] == p[0] && (p + q)[1..] == p[1..] + q;
      assert IdSet(p + q) == {p[0].id} + IdSet(p[1..] + q);
    }
  }

  lemma {:induction false} IdSeqConcat(p: seq<Task>, q: seq<Task>)
    ensures Ids(p + q) == Ids(p) + Ids(q)
  {
    if p == [] {
      assert p + q == q;
    } else {
      IdSeqConcat(p[1..], q);
      assert (p + q)[0] == p[0] && (p + q)[1..] == p[1..] + q;
      var x := [p[0].id];
      assert Ids(p + q) == x + Ids(p[1..] + q) == x + (Ids(p[1..]) + Ids(q));
      assert x + (Ids(p[1..]) + Ids(q)) == (x + Ids(p[1..])) + Ids(q);
    }
  }

  lemma {:induction false} EnqueueFacts(q: seq<Task>, t: Task)
    requires DistinctTasks(q) && t.id !in IdSet(q)
    ensures DistinctTasks(q + [t]) && IdSet(q + [t]) == IdSet(q) + {t.id} && Ids(q + [t]) == Ids(q) + [t.id]
    ensures Fresh(q) && t.attempts < MAX_RETRIES ==> Fresh(q + [t])
  {
    if q == [] {
      assert q + [t] == [t];
    } else {
      EnqueueFacts(q[1..], t);
      assert (q + [t])[1..] == q[1..] + [t];
    }
  }

  lemma StepKeepsInv(s: Queue, e: Event)
    requires Inv(s) && (e.Enqueue? ==> e.id !in IdSet(s.queue))
    ensures Inv(Step(s, e))
  {
    match e {
      case Enqueue(id, kind, now) => EnqueueFacts(s.queue, Task(id, kind, now, 0));
      case Tick => if !s.processing { PicksAreTheFront(s); }
      case Succeeded(id, _) => if id in s.running { CompletionFacts(s, id); }
      case Failed(id, _) => if id in s.running { CompletionFacts(s, id); }
      case BatchSettled =>
      case BreakerReset =>
    }
  }

  lemma CompletionFacts(s: Queue, id: string)
    requires Inv(s) && id in s.running
    ensures id in IdSet(s.queue) && |s.running - {id}| == |s.running| - 1
    ensures Lookup(s.queue, id).id == id && |Remove(s.queue, id)| == |s.queue| - 1
    ensures Inv(s.(queue := Remove(s.queue, id), running := s.running - {id}))
    ensures IdSet(Remove(s.queue, id)) == IdSet(s.queue) - {id}
    ensures IdSet(Retried(s.queue, id)) == IdSet(s.queue) && Ids(Retried(s.queue, id)) == Ids(s.queue)
    ensures DistinctTasks(Retried(s.queue, id))
    ensures Lookup(s.queue, id).attempts + 1 < MAX_RETRIES ==> Fresh(Retried(s.queue, id))
  {
    RemoveFacts(s.queue, id);
    RetriedFacts(s.queue, id);
  }

  // ----- What a tick starts -------------------------------------------------------------------------

  lemma {:induction false} IdSetIsIndexed(q: seq<Task>)
    ensures IdSet(q) == set i | 0 <= i < |q| :: q[i].id
  {
    if q != [] {
      IdSetIsIndexed(q[1..]);
      forall x | x in IdSet(q) ensures exists i :: 0 <= i < |q| && q[i].id == x {
        if x != q[0].id {
          var i :| 0 <= i < |q[1..]| && q[1..][i].id == x;
          assert q[i + 1].id == x;
        }
      }
      forall i | 0 <= i < |q| ensures q[i].id in IdSet(q) {
        if i > 0 { assert q[1..][i - 1].id == q[i].id; }
      }
    }
  }

  lemma TickStarts(s: Queue, picks: seq<Task>)
    requires !s.breakerOpen && !s.processing && s.queue != [] && picks == Picks(s)
    ensures Step(s, Tick) == s.(processing := picks != [], running := s.running + IdSet(picks))
  {
    assert s.running + {} == s.running;
  }

  /** The ids of the first three tasks. */
  function FrontThree(q: seq<Task>): set<string> {
    set i | 0 <= i < |q| && i < 3 :: q[i].id
  }

  lemma FrontThreeIds(q: seq<Task>, n: nat)
    requires n == if 3 <= |q| then 3 else |q|
    ensures IdSet(q[..n]) == FrontThree(q)
  {
    IdSetIsIndexed(q[..n]);
    assert forall i :: 0 <= i < n ==> q[..n][i] == q[i];
    forall x | x in FrontThree(q) ensures x in IdSet(q[..n]) {
      var i :| 0 <= i < |q| && i < 3 && q[i].id == x;
      assert q[..n][i].id == x;
    }
  }

  /**
   A tick starts nothing while the breaker is open, even if a late success has cleared the count, nor while
   a batch is being processed; otherwise it starts exactly the first three tasks of the queue.
  */
  lemma TickMarksTheFront(s: Queue)
    requires Inv(s)
    ensures var t := Step(s, Tick);
      && t.running - s.running == (if s.breakerOpen || s.processing then {} else FrontThree(s.queue))
      && s.running <= t.running
      && (t.processing <==> s.processing || t.running != {})
      && t == s.(running := t.running, processing := t.processing)
  {
    if !s.breakerOpen && !s.processing {
      PicksAreTheFront(s);
      FrontThreeIds(s.queue, |Picks(s)|);
      if s.queue != [] { assert s.queue[0].id in FrontThree(s.queue); }
    }
  }

  // ----- The queue keeps the order of arrival ----------------------------------------------------

  function Kept(a: seq<string>, live: set<string>): seq<string> {
    if a == [] then []
    else if a[0] in live then [a[0]] + Kept(a[1..], live)
    else Kept(a[1..], live)
  }

  lemma {:induction false} KeptConcat(a: seq<string>, b: seq<string>, live: set<string>)
    ensures Kept(a + b, live) == Kept(a, live) + Kept(b, live)
  {
    if a == [] {
      assert a + b == b;
    } else {
      KeptConcat(a[1..], b, live);
      assert (a + b)[0] == a[0] && (a + b)[1..] == a[1..] + b;
      assert Kept(a + b, live) == if a[0] in live then [a[0]] + Kept(a[1..] + b, live) else Kept(a[1..] + b, live);
    }
  }

  lemma {:induction false} KeptTwice(a: seq<string>, live: set<string>, fewer: set<string>)
    requires fewer <= live
    ensures Kept(Kept(a, live), fewer) == Kept(a, fewer)
  {
    if a != [] {
      KeptTwice(a[1..], live, fewer);
    }
  }

  lemma {:induction false} KeptAgree(a: seq<string>, s: set<string>, t: set<string>)
    requires forall x :: x in a ==> (x in s <==> x in t)
    ensures Kept(a, s) == Kept(a, t)
  {
    if a != [] { KeptAgree(a[1..], s, t); }
  }

  lemma {:induction false} KeptAll(a: seq<string>, s: set<string>)
    requires forall x :: x in a ==> x in s
    ensures Kept(a, s) == a
  {
    if a != [] { KeptAll(a[1..], s); }
  }

  lemma {:induction false} RemoveKeeps(q: seq<Task>, id: string, live: set<string>)
    requires DistinctTasks(q) && id in IdSet(q) && id !in live && IdSet(q) - {id} <= live
    ensures Ids(Remove(q, id)) == Kept(Ids(q), live)
  {
    if q[0].id == id {
      IdSetIsIds(q[1..]);
      KeptAll(Ids(q[1..]), live);
    } else {
      RemoveKeeps(q[1..], id, live);
    }
  }

  /** The queue lists the live ids in the order in which they arrived. */
  ghost predicate InArrivalOrder(s: Queue, arrivals: seq<string>) {
    Ids(s.queue) == Kept(arrivals, IdSet(s.queue))
  }

  lemma StepKeepsOrder(s: Queue, e: Event, arrivals: seq<string>)
    requires Inv(s) && InArrivalOrder(s, arrivals)
    requires e.Enqueue? ==> e.id !in arrivals && e.id !in IdSet(s.queue)
    ensures InArrivalOrder(Step(s, e), if e.Enqueue? then arrivals + [e.id] else arrivals)
  {
    if e.Enqueue? {
      ArrivalKeepsOrder(s.queue, Task(e.id, e.kind, e.now, 0), arrivals);
    } else if (e.Succeeded? || e.Failed?) && e.id in s.running {
      CompletionFacts(s, e.id);
      RemovalKeepsOrder(s.queue, e.id, arrivals);
    }
  }

  lemma ArrivalKeepsOrder(q: seq<Task>, t: Task, arrivals: seq<string>)
    requires DistinctTasks(q) && t.id !in IdSet(q) && t.id !in arrivals && Ids(q) == Kept(arrivals, IdSet(q))
    ensures Ids(q + [t]) == Kept(arrivals + [t.id], IdSet(q + [t]))
  {
    EnqueueFacts(q, t);
    KeptConcat(arrivals, [t.id], IdSet(q + [t]));
    KeptAgree(arrivals, IdSet(q + [t]), IdSet(q));
  }

  lemma RemovalKeepsOrder(q: seq<Task>, id: string, arrivals: seq<string>)
    requires DistinctTasks(q) && id in IdSet(q) && Ids(q) == Kept(arrivals, IdSet(q))
    ensures Ids(Remove(q, id)) == Kept(arrivals, IdSet(Remove(q, id)))
  {
    RemoveFacts(q, id);
    RemoveKeeps(q, id, IdSet(q) - {id});
    KeptTwice(arrivals, IdSet(q), IdSet(q) - {id});
  }

  // ----- Accounting --------------------------------------------------------------------------------

  function Enqueued(es: seq<Event>): nat {
    if es == [] then 0 else Enqueued(es[..|es| - 1]) + if es[|es| - 1].Enqueue? then 1 else 0
  }

  /** Every task that entered is queued, processed or failed, and successes are counted by kind. */
  ghost predicate Balanced(restored: nat, m0: Metrics, enqueued: nat, s: Queue) {
    var m := s.metrics;
    && restored + enqueued == |s.queue| + (m.totalProcessed - m0.totalProcessed) + (m.totalFailed - m0.totalFailed)
    && m.totalProcessed - m0.totalProcessed
       == (m.createCount - m0.createCount) + (m.updateCount - m0.updateCount) + (m.deleteCount - m0.deleteCount)
  }

  lemma StepKeepsBalance(restored: nat, m0: Metrics, enqueued: nat, s: Queue, e: Event)
    requires Inv(s) && Balanced(restored, m0, enqueued, s)
    ensures Balanced(restored, m0, enqueued + if e.Enqueue? then 1 else 0, Step(s, e))
  {
    if (e.Succeeded? || e.Failed?) && e.id in s.running {
      RemoveFacts(s.queue, e.id);
      RetriedFacts(s.queue, e.id);
      IdsLength(s.queue);
      IdsLength(Retried(s.queue, e.id));
    }
  }

  /** The durations of the successes of a run. */
  function TimeSpent(s: Queue, es: seq<Event>): int {
    if es == [] then 0
    else
      var before, e := es[..|es| - 1], es[|es| - 1];
      TimeSpent(s, before)
      + if e.Succeeded? && e.id in Run(s, before).running && e.id in IdSet(Run(s, before).queue) then e.duration else 0
  }

  /** The running average is the true mean: times the count, it is the sum of all durations. */
  lemma {:induction false} AverageIsMean(s: Queue, es: seq<Event>)
    ensures TotalTime(Run(s, es).metrics) == TotalTime(s.metrics) + TimeSpent(s, es) as real
  {
    if es != [] {
      var before, e := es[..|es| - 1], es[|es| - 1];
      AverageIsMean(s, before);
      var mid := Run(s, before);
      if e.Succeeded? && e.id in mid.running && e.id in IdSet(mid.queue) {
        SuccessAddsTime(mid.metrics, Lookup(mid.queue, e.id).kind, e.duration);
      } else {
        OthersKeepTime(mid, e);
      }
    }
  }

  function TotalTime(m: Metrics): real {
    m.averageProcessingTime * m.totalProcessed as real
  }

  lemma SuccessAddsTime(m: Metrics, kind: TaskType, duration: int)
    ensures TotalTime(CountSuccess(m, kind, duration)) == TotalTime(m) + duration as real
  {
  }

  lemma OthersKeepTime(s: Queue, e: Event)
    requires !(e.Succeeded? && e.id in s.running && e.id in IdSet(s.queue))
    ensures TotalTime(Step(s, e).metrics) == TotalTime(s.metrics)
  {
  }

  // ----- Main theorem: all of it, in every interleaving ----------------------------------------------

  lemma DistinctBefore(tasks: seq<Task>, es: seq<Event>)
    requires es != [] && Distinct(Arrivals(tasks, es))
    ensures var a, e := Arrivals(tasks, es[..|es| - 1]), es[|es| - 1];
      Distinct(a) && (e.Enqueue? ==> e.id !in a)
  {
    var a, a' := Arrivals(tasks, es[..|es| - 1]), Arrivals(tasks, es);
    assert forall i :: 0 <= i < |a| ==> a[i] == a'[i];
    if es[|es| - 1].Enqueue? { assert a'[|a|] == es[|es| - 1].id; }
  }

  lemma {:induction false} EveryInterleaving(tasks: seq<Task>, m0: Metrics, es: seq<Event>)
    requires Restorable(tasks) && Distinct(Arrivals(tasks, es))
    ensures var s := Run(Started(tasks, m0), es);
      && Inv(s)
      && |s.running| <= 3 && s.novuFailureCount + |s.running| <= 12
      && (forall id :: id in IdSet(s.queue) ==> Lookup(s.queue, id).attempts < 5)
      && InArrivalOrder(s, Arrivals(tasks, es))
      && Balanced(|tasks|, m0, Enqueued(es), s)
  {
    if es == [] {
      IdSetIsIds(tasks);
      KeptAll(Ids(tasks), IdSet(tasks));
    } else {
      var before, e := es[..|es| - 1], es[|es| - 1];
      var a := Arrivals(tasks, before);
      DistinctBefore(tasks, es);
      EveryInterleaving(tasks, m0, before);
      var s := Run(Started(tasks, m0), before);
      QueuedArrived(s, a);
      StepKeepsInv(s, e);
      StepKeepsOrder(s, e, a);
      StepKeepsBalance(|tasks|, m0, Enqueued(before), s, e);
    }
    FreshMeansFewer(Run(Started(tasks, m0), es).queue);
  }

  lemma {:induction false} FreshMeansFewer(q: seq<Task>)
    requires Fresh(q)
    ensures forall id :: id in IdSet(q) ==> Lookup(q, id).attempts < 5
  {
    if q != [] { FreshMeansFewer(q[1..]); }
  }

  lemma {:induction false} KeptIsFrom(a: seq<string>, live: set<string>)
    ensures forall x :: x in Kept(a, live) <==> x in a && x in live
  {
    if a != [] { KeptIsFrom(a[1..], live); }
  }

  lemma QueuedArrived(s: Queue, arrivals: seq<string>)
    requires InArrivalOrder(s, arrivals)
    ensures forall x :: x in IdSet(s.queue) ==> x in arrivals
  {
    IdSetIsIds(s.queue);
    KeptIsFrom(arrivals, IdSet(s.queue));
  }

  /** A task never overtakes more than a batch: when it starts, at most two earlier arrivals are queued. */
  lemma StartsNearTheFront(tasks: seq<Task>, m0: Metrics, es: seq<Event>, m: nat)
    requires Restorable(tasks) && Distinct(Arrivals(tasks, es))
    requires m < |Arrivals(tasks, es)|
    ensures var s := Run(Started(tasks, m0), es);
      var arrivals := Arrivals(tasks, es);
      arrivals[m] in Step(s, Tick).running - s.running ==>
        |Kept(arrivals[..m], IdSet(s.queue))| < CONCURRENCY
  {
    var s := Run(Started(tasks, m0), es);
    var a := Arrivals(tasks, es);
    EveryInterleaving(tasks, m0, es);
    if a[m] in Step(s, Tick).running - s.running {
      var k := PickedPosition(s, a[m]);
      KeptPosition(a, IdSet(s.queue), m, k);
    }
  }

  lemma PickedPosition(s: Queue, id: string) returns (k: nat)
    requires Inv(s) && id in Step(s, Tick).running - s.running
    ensures k < CONCURRENCY && k < |Ids(s.queue)| && Ids(s.queue)[k] == id && id in IdSet(s.queue)
  {
    PicksAreTheFront(s);
    var picks := Picks(s);
    IdSetIsIds(picks);
    k :| 0 <= k < |Ids(picks)| && Ids(picks)[k] == id;
    IdsLength(picks);
    var rest := s.queue[|picks|..];
    IdsConcat(picks, rest);
    assert s.queue == picks + rest;
  }

  /** The position among the kept ids is the number of kept ids that came before. */
  lemma {:induction false} KeptPosition(a: seq<string>, live: set<string>, m: nat, k: nat)
    requires Distinct(a) && m < |a| && a[m] in live
    requires k < |Kept(a, live)| && Kept(a, live)[k] == a[m]
    ensures |Kept(a[..m], live)| == k
  {
    assert forall i :: 0 <= i < |a[1..]| ==> a[1..][i] == a[i + 1] && a[i + 1] != a[0];
    KeptIsFrom(a[1..], live);
    assert a[0] !in Kept(a[1..], live);
    if m > 0 {
      assert a[..m][1..] == a[1..][..m - 1];
      KeptPosition(a[1..], live, m - 1, if a[0] in live then k - 1 else k);
    }
  }

  /** A failed task that is retried is not moved to the end of the queue: everybody keeps their place. */
  lemma FailedTaskKeepsItsPlace(s: Queue, id: string)
    requires Inv(s) && id in s.running && Lookup(s.queue, id).attempts + 1 < MAX_RETRIES
    ensures Ids(Step(s, Failed(id, false)).queue) == Ids(s.queue)
  {
    CompletionFacts(s, id);
  }

  // ----- Attempts and the breaker count tell the history -----------------------------------------------------

  /** The failures of the task that the run has seen. */
  function FailuresOf(s: Queue, es: seq<Event>, id: string): nat {
    if es == [] then 0
    else
      var before, e := es[..|es| - 1], es[|es| - 1];
      FailuresOf(s, before, id) + if e.Failed? && e.id == id && id in Run(s, before).running then 1 else 0
  }

  lemma {:induction false} LookupAppend(q: seq<Task>, t: Task, id: string)
    requires id in IdSet(q) || t.id == id
    ensures id in IdSet(q + [t])
    ensures Lookup(q + [t], id) == if id in IdSet(q) then Lookup(q, id) else t
  {
    if q == [] {
      assert q + [t] == [t];
    } else {
      assert (q + [t])[1..] == q[1..] + [t];
      if q[0].id != id { LookupAppend(q[1..], t, id); }
    }
  }

  lemma {:induction false} LookupOther(q: seq<Task>, gone: string, id: string)
    requires DistinctTasks(q) && gone in IdSet(q) && id in IdSet(q) && id != gone
    ensures id in IdSet(Remove(q, gone)) && Lookup(Remove(q, gone), id) == Lookup(q, id)
    ensures id in IdSet(Retried(q, gone)) && Lookup(Retried(q, gone), id) == Lookup(q, id)
  {
    if q[0].id != gone && q[0].id != id { LookupOther(q[1..], gone, id); }
  }

  lemma {:induction false} LookupRetried(q: seq<Task>, id: string)
    requires id in IdSet(q)
    ensures id in IdSet(Retried(q, id))
    ensures Lookup(Retried(q, id), id) == Lookup(q, id).(attempts := Lookup(q, id).attempts + 1)
  {
    if q[0].id != id { LookupRetried(q[1..], id); }
  }

  /** The attempts that a queue shows for an id. */
  function AttemptsIn(q: seq<Task>, id: string): nat {
    if id in IdSet(q) then Lookup(q, id).attempts else 0
  }

  lemma AttemptsOfArrival(q: seq<Task>, t: Task, id: string)
    requires t.attempts == 0 && t.id !in IdSet(q)
    ensures AttemptsIn(q + [t], id) == AttemptsIn(q, id)
    ensures id in IdSet(q + [t]) ==> id in IdSet(q) || id == t.id
  {
    IdsConcat(q, [t]);
    assert IdSet([t]) == {t.id};
    if id in IdSet(q + [t]) { LookupAppend(q, t, id); }
  }

  lemma AttemptsOfCompletion(s: Queue, e: Event, id: string)
    requires Inv(s) && (e.Succeeded? || e.Failed?) && e.id in s.running && id in IdSet(Step(s, e).queue)
    ensures id in IdSet(s.queue)
    ensures AttemptsIn(Step(s, e).queue, id) == AttemptsIn(s.queue, id) + if e.Failed? && e.id == id then 1 else 0
  {
    CompletionFacts(s, e.id);
    if e.id == id { LookupRetried(s.queue, id); } else { LookupOther(s.queue, e.id, id); }
  }

  lemma AttemptsStep(s: Queue, e: Event, id: string)
    requires Inv(s) && (e.Enqueue? ==> e.id !in IdSet(s.queue)) && id in IdSet(Step(s, e).queue)
    ensures id in IdSet(s.queue) || (e.Enqueue? && e.id == id)
    ensures AttemptsIn(Step(s, e).queue, id)
         == AttemptsIn(s.queue, id) + if e.Failed? && e.id == id && id in s.running then 1 else 0
  {
    match e
    case Enqueue(x, kind, now) => AttemptsOfArrival(s.queue, Task(x, kind, now, 0), id);
    case Succeeded(x, _) => if x in s.running { AttemptsOfCompletion(s, e, id); }
    case Failed(x, _) => if x in s.running { AttemptsOfCompletion(s, e, id); }
    case _ =>
  }

  /**
   In every interleaving the attempts of a queued task are those it was restored with plus the failures
   it has had since: no failure is forgotten, and none is charged to another task.
  */
  lemma {:induction false} AttemptsCountFailures(tasks: seq<Task>, m0: Metrics, es: seq<Event>, id: string)
    requires Restorable(tasks) && Distinct(Arrivals(tasks, es))
    ensures var s0 := Started(tasks, m0);
      && (id in IdSet(Run(s0, es).queue) ==>
            AttemptsIn(Run(s0, es).queue, id) == AttemptsIn(tasks, id) + FailuresOf(s0, es, id))
      && (id !in Arrivals(tasks, es) ==> FailuresOf(s0, es, id) == 0)
  {
    if es != [] {
      var s0, before, e := Started(tasks, m0), es[..|es| - 1], es[|es| - 1];
      DistinctBefore(tasks, es);
      AttemptsCountFailures(tasks, m0, before, id);
      EveryInterleaving(tasks, m0, before);
      var s := Run(s0, before);
      QueuedArrived(s, Arrivals(tasks, before));
      RestoredArrived(tasks, before);
      if id in IdSet(Step(s, e).queue) {
        AttemptsStep(s, e, id);
        if id !in IdSet(s.queue) { assert id !in IdSet(tasks); }
      }
    }
  }

  lemma {:induction false} RestoredArrived(tasks: seq<Task>, es: seq<Event>)
    ensures forall x :: x in IdSet(tasks) ==> x in Arrivals(tasks, es)
  {
    if es == [] { IdSetIsIds(tasks); } else { RestoredArrived(tasks, es[..|es| - 1]); }
  }

  // ----- What becomes of a task, and how it is counted ------------------------------------------------------

  /** A task leaves exactly when it succeeds, when it meets a breaker error, and with its fifth failure. */
  lemma FateOfTask(s: Queue, e: Event, id: string)
    requires Inv(s) && id in IdSet(s.queue)
    ensures id !in IdSet(Step(s, e).queue) <==>
      && id in s.running
      && ((e.Succeeded? && e.id == id)
          || (e.Failed? && e.id == id && (e.breakerError || Lookup(s.queue, id).attempts + 1 >= 5)))
  {
    match e
    case Enqueue(x, kind, now) => IdsConcat(s.queue, [Task(x, kind, now, 0)]);
    case Succeeded(x, _) => if x in s.running { CompletionFacts(s, x); }
    case Failed(x, _) => if x in s.running { CompletionFacts(s, x); }
    case _ =>
  }

  /** The task as it entered: restored, or enqueued. */
  function ArrivalOf(tasks: seq<Task>, es: seq<Event>, id: string): Option<Task> {
    if es == [] then if id in IdSet(tasks) then Some(Lookup(tasks, id)) else None
    else
      var before, e := es[..|es| - 1], es[|es| - 1];
      if e.Enqueue? && e.id == id then Some(Task(id, e.kind, e.now, 0)) else ArrivalOf(tasks, before, id)
  }

  ghost predicate SameTask(q: seq<Task>, q': seq<Task>, id: string) {
    && id in IdSet(q) && id in IdSet(q')
    && Lookup(q, id).kind == Lookup(q', id).kind && Lookup(q, id).createdAt == Lookup(q', id).createdAt
  }

  lemma TaskStays(s: Queue, e: Event, id: string)
    requires Inv(s) && !e.Enqueue? && id in IdSet(Step(s, e).queue)
    ensures SameTask(s.queue, Step(s, e).queue, id)
  {
    if (e.Succeeded? || e.Failed?) && e.id in s.running {
      CompletionFacts(s, e.id);
      if e.id == id { LookupRetried(s.queue, id); } else { LookupOther(s.queue, e.id, id); }
    }
  }

  lemma TaskArrives(q: seq<Task>, t: Task, id: string)
    requires t.id !in IdSet(q) && id in IdSet(q + [t])
    ensures id == t.id ==> id !in IdSet(q) && Lookup(q + [t], id) == t
    ensures id != t.id ==> SameTask(q, q + [t], id)
  {
    IdsConcat(q, [t]);
    assert IdSet([t]) == {t.id};
    LookupAppend(q, t, id);
  }

  /** Every queued task shows the kind and the time with which it entered. */
  lemma {:induction false} QueuedAsArrived(tasks: seq<Task>, m0: Metrics, es: seq<Event>, id: string)
    requires Restorable(tasks) && Distinct(Arrivals(tasks, es))
    requires id in IdSet(Run(Started(tasks, m0), es).queue)
    ensures var a, t := ArrivalOf(tasks, es, id), Lookup(Run(Started(tasks, m0), es).queue, id);
      a.Some? && t.kind == a.value.kind && t.createdAt == a.value.createdAt
  {
    if es != [] {
      var s0, before, e := Started(tasks, m0), es[..|es| - 1], es[|es| - 1];
      var s := Run(s0, before);
      DistinctBefore(tasks, es);
      EveryInterleaving(tasks, m0, before);
      QueuedArrived(s, Arrivals(tasks, before));
      if e.Enqueue? {
        TaskArrives(s.queue, Task(e.id, e.kind, e.now, 0), id);
      } else {
        TaskStays(s, e, id);
      }
      if id in IdSet(s.queue) { QueuedAsArrived(tasks, m0, before, id); }
    }
  }

  datatype Result = Nothing | Success(kind: TaskType) | Retry | GaveUp

  /** What the last event of the run has done, from the arrivals and the earlier failures. */
  function LastResult(tasks: seq<Task>, m0: Metrics, es: seq<Event>): Result
    requires es != []
  {
    var s0, before, e := Started(tasks, m0), es[..|es| - 1], es[|es| - 1];
    if !(e.Succeeded? || e.Failed?) || e.id !in Run(s0, before).running then Nothing
    else if e.Succeeded? then
      var a := ArrivalOf(tasks, before, e.id);
      if a.Some? then Success(a.value.kind) else Nothing
    else if e.breakerError || AttemptsIn(tasks, e.id) + FailuresOf(s0, before, e.id) + 1 >= 5 then GaveUp
    else Retry
  }

  function Total(tasks: seq<Task>, m0: Metrics, es: seq<Event>, r: Result): nat {
    if es == [] then 0
    else Total(tasks, m0, es[..|es| - 1], r) + if LastResult(tasks, m0, es) == r then 1 else 0
  }

  ghost predicate Recorded(m0: Metrics, m: Metrics, r: Result) {
    && m.createCount == m0.createCount + (if r == Success(Create) then 1 else 0)
    && m.updateCount == m0.updateCount + (if r == Success(Update) then 1 else 0)
    && m.deleteCount == m0.deleteCount + (if r == Success(Delete) then 1 else 0)
    && m.totalProcessed == m0.totalProcessed + (if r.Success? then 1 else 0)
    && m.totalFailed == m0.totalFailed + (if r.GaveUp? then 1 else 0)
    && m.totalRetried == m0.totalRetried + (if r.Retry? then 1 else 0)
  }

  lemma SuccessRecords(m: Metrics, kind: TaskType, duration: int)
    ensures Recorded(m, CountSuccess(m, kind, duration), Success(kind))
  {
  }

  lemma FailureRecords(s: Queue, task: Task, breakerError: bool)
    ensures Recorded(s.metrics, HandleFailure(s, task, breakerError).metrics,
                     if breakerError || task.attempts + 1 >= 5 then GaveUp else Retry)
  {
  }

  lemma StepRecords(s: Queue, e: Event, r: Result)
    requires Inv(s)
    requires r == if !(e.Succeeded? || e.Failed?) || e.id !in s.running then Nothing
                  else if e.Succeeded? then Success(Lookup(s.queue, e.id).kind)
                  else if e.breakerError || Lookup(s.queue, e.id).attempts + 1 >= 5 then GaveUp else Retry
    ensures Recorded(s.metrics, Step(s, e).metrics, r)
  {
    match e
    case Succeeded(id, d) => if id in s.running { SuccessRecords(s.metrics, Lookup(s.queue, id).kind, d); }
    case Failed(id, b) => if id in s.running { FailureRecords(s, Lookup(s.queue, id), b); }
    case _ =>
  }

  /** Each counter of the metrics is what the history says. */
  lemma {:induction false} MetricsFollowHistory(tasks: seq<Task>, m0: Metrics, es: seq<Event>)
    requires Restorable(tasks) && Distinct(Arrivals(tasks, es))
    ensures var m := Run(Started(tasks, m0), es).metrics;
      && m.createCount == m0.createCount + Total(tasks, m0, es, Success(Create))
      && m.updateCount == m0.updateCount + Total(tasks, m0, es, Success(Update))
      && m.deleteCount == m0.deleteCount + Total(tasks, m0, es, Success(Delete))
      && m.totalFailed == m0.totalFailed + Total(tasks, m0, es, GaveUp)
      && m.totalRetried == m0.totalRetried + Total(tasks, m0, es, Retry)
  {
    if es != [] {
      var before, e := es[..|es| - 1], es[|es| - 1];
      var s := Run(Started(tasks, m0), before);
      DistinctBefore(tasks, es);
      MetricsFollowHistory(tasks, m0, before);
      EveryInterleaving(tasks, m0, before);
      if (e.Succeeded? || e.Failed?) && e.id in s.running {
        QueuedAsArrived(tasks, m0, before, e.id);
        AttemptsCountFailures(tasks, m0, before, e.id);
      }
      StepRecords(s, e, LastResult(tasks, m0, es));
    }
  }

  /** Failures other than breaker errors since the last success or the last time the breaker timer fired. */
  function Streak(s: Queue, es: seq<Event>): nat {
    if es == [] then 0
    else
      StreakAfter(Run(s, es[..|es| - 1]), es[|es| - 1], Streak(s, es[..|es| - 1]))
  }

  function StreakAfter(s: Queue, e: Event, n: nat): nat {
    if e.Failed? && e.id in s.running && !e.breakerError then n + 1
    else if (e.Succeeded? && e.id in s.running) || (e.BreakerReset? && s.breakerOpen) then 0
    else n
  }

  /** With event number `i` the streak reached the threshold, and the timer has not fired since. */
  ghost predicate LatchedAt(s: Queue, es: seq<Event>, i: nat) {
    && 0 < i <= |es| && Streak(s, es[..i]) >= 10
    && forall j :: i <= j < |es| ==> !es[j].BreakerReset?
  }

  ghost predicate Latched(s: Queue, es: seq<Event>) {
    exists i :: LatchedAt(s, es, i)
  }

  lemma LatchedAtBefore(s: Queue, es: seq<Event>, i: nat)
    requires i < |es|
    ensures LatchedAt(s, es, i) <==> LatchedAt(s, es[..|es| - 1], i) && !es[|es| - 1].BreakerReset?
  {
    var before := es[..|es| - 1];
    assert before[..i] == es[..i];
    assert forall j :: 0 <= j < |before| ==> before[j] == es[j];
  }

  lemma LatchedStep(s: Queue, es: seq<Event>)
    requires es != []
    ensures var before, e := es[..|es| - 1], es[|es| - 1];
      Latched(s, es) <==> (Latched(s, before) && !e.BreakerReset?) || Streak(s, es) >= 10
  {
    var before := es[..|es| - 1];
    assert es[..|es|] == es;
    assert LatchedAt(s, es, |es|) <==> Streak(s, es) >= 10;
    if i: nat :| LatchedAt(s, es, i) && i < |es| { LatchedAtBefore(s, es, i); }
    if i: nat :| LatchedAt(s, before, i) { LatchedAtBefore(s, es, i); }
  }

  lemma BreakerStep(s: Queue, e: Event)
    requires Inv(s) && Inv(Step(s, e))
    ensures Step(s, e).breakerOpen
       <==> (s.breakerOpen && !e.BreakerReset?) || Step(s, e).novuFailureCount >= CIRCUIT_BREAKER_THRESHOLD
  {
  }

  lemma StreakStep(s: Queue, e: Event)
    requires Inv(s)
    ensures Step(s, e).novuFailureCount == StreakAfter(s, e, s.novuFailureCount)
  {
    if e.Failed? && e.id in s.running { CompletionFacts(s, e.id); }
  }

  /** The count is that streak, and the breaker is open exactly while it is latched. */
  lemma {:induction false} BreakerFollowsHistory(tasks: seq<Task>, m0: Metrics, es: seq<Event>)
    requires Restorable(tasks) && Distinct(Arrivals(tasks, es))
    ensures Run(Started(tasks, m0), es).novuFailureCount == Streak(Started(tasks, m0), es)
    ensures Run(Started(tasks, m0), es).breakerOpen <==> Latched(Started(tasks, m0), es)
  {
    if es != [] {
      var s0, before, e := Started(tasks, m0), es[..|es| - 1], es[|es| - 1];
      DistinctBefore(tasks, es);
      BreakerFollowsHistory(tasks, m0, before);
      EveryInterleaving(tasks, m0, before);
      EveryInterleaving(tasks, m0, es);
      BreakerStep(Run(s0, before), e);
      StreakStep(Run(s0, before), e);
      LatchedStep(s0, es);
    }
  }

  // ----- The queue drains -------------------------------------------------------------------------------

  /** The attempts that the queued tasks may still use up. */
  function Budget(q: seq<Task>): int {
    if q == [] then 0 else (MAX_RETRIES - q[0].attempts) + Budget(q[1..])
  }

  /** Completions of tasks that were running. */
  function Completions(s: Queue, es: seq<Event>): nat {
    if es == [] then 0
    else
      var before, e := es[..|es| - 1], es[|es| - 1];
      Completions(s, before) + if (e.Succeeded? || e.Failed?) && e.id in Run(s, before).running then 1 else 0
  }

  lemma {:induction false} BudgetBounds(q: seq<Task>)
    requires Fresh(q)
    ensures |q| <= Budget(q) <= MAX_RETRIES * |q|
  {
    if q != [] { BudgetBounds(q[1..]); }
  }

  lemma BudgetFalls(s: Queue, e: Event)
    requires Inv(s) && (e.Succeeded? || e.Failed?) && e.id in s.running
    ensures Budget(Step(s, e).queue) < Budget(s.queue)
  {
    CompletionFacts(s, e.id);
    BudgetOfOne(s.queue, e.id);
  }

  lemma BudgetNeverRises(s: Queue, e: Event)
    requires Inv(s) && !e.Enqueue?
    ensures Inv(Step(s, e))
    ensures Budget(Step(s, e).queue) + (if (e.Succeeded? || e.Failed?) && e.id in s.running then 1 else 0)
         <= Budget(s.queue)
  {
    StepKeepsInv(s, e);
    if (e.Succeeded? || e.Failed?) && e.id in s.running { BudgetFalls(s, e); }
  }

  /** Taking one task out saves its remaining attempts, trying it once more saves one. */
  lemma {:induction false} BudgetOfOne(q: seq<Task>, id: string)
    requires id in IdSet(q) && Fresh(q)
    ensures Budget(Remove(q, id)) < Budget(q) && Budget(Retried(q, id)) == Budget(q) - 1
  {
    if q[0].id != id { BudgetOfOne(q[1..], id); }
  }

  /** Without new tasks every execution uses up budget: five per queued task empty the queue. */
  lemma {:induction false} Drains(s: Queue, es: seq<Event>)
    requires Inv(s) && (forall e :: e in es ==> !e.Enqueue?)
    ensures Inv(Run(s, es))
    ensures Completions(s, es) + Budget(Run(s, es).queue) <= Budget(s.queue) <= MAX_RETRIES * |s.queue|
    ensures Completions(s, es) + |Run(s, es).queue| <= MAX_RETRIES * |s.queue|
    ensures Completions(s, es) >= Budget(s.queue) ==> Run(s, es).queue == []
  {
    BudgetBounds(s.queue);
    if es != [] {
      var before, e := es[..|es| - 1], es[|es| - 1];
      assert e in es;
      Drains(s, before);
      var mid := Run(s, before);
      BudgetNeverRises(mid, e);
    }
    BudgetBounds(Run(s, es).queue);
  }

  /** It never gets stuck either: while tasks are queued, one is running or at most three timers away. */
  lemma NeverStuck(s: Queue)
    requires Inv(s) && s.queue != [] && s.running == {}
    ensures Step(Step(Step(s, BatchSettled), BreakerReset), Tick).running != {}
  {
    var mid := Step(Step(s, BatchSettled), BreakerReset);
    PicksAreTheFront(mid);
    assert Picks(mid)[0].id in IdSet(Picks(mid));
  }

  // ----- The service object ------------------------------------------------------------------------------

  class SubscriberTask {
    const id: string
    const kind: TaskType
    const createdAt: int
    var attempts: nat

    ghost function Value(): Task
      reads this
    {
      Task(id, kind, createdAt, attempts)
    }

    constructor (id: string, kind: TaskType, createdAt: int)
      ensures Value() == Task(id, kind, createdAt, 0)
    {
      this.id, this.kind, this.createdAt, attempts := id, kind, createdAt, 0;
    }
  }

  ghost function Values(q: seq<SubscriberTask>): seq<Task>
    reads q
  {
    if q == [] then [] else [q[0].Value()] + Values(q[1..])
  }

  lemma {:induction false} ValuesAt(q: seq<SubscriberTask>)
    ensures |Values(q)| == |q| && forall i :: 0 <= i < |q| ==> Values(q)[i] == q[i].Value()
  {
    if q != [] { ValuesAt(q[1..]); }
  }

  lemma ValuesWithout(q: seq<SubscriberTask>, k: nat)
    requires k < |q|
    ensures |Values(q)| == |q| && Values(q[..k] + q[k + 1..]) == Values(q)[..k] + Values(q)[k + 1..]
  {
    ValuesAt(q);
    ValuesAt(q[..k] + q[k + 1..]);
  }

  lemma {:induction false} IdsOfObjects(q: seq<SubscriberTask>)
    ensures IdSet(Values(q)) == set task | task in q :: task.id
  {
    if q != [] {
      IdsOfObjects(q[1..]);
      assert forall task :: task in q <==> task == q[0] || task in q[1..];
      assert forall x :: x in IdSet(Values(q)) <==> x == q[0].id || x in IdSet(Values(q[1..]));
    }
  }

  lemma {:induction false} DistinctAt(q: seq<Task>)
    requires DistinctTasks(q)
    ensures forall i, j :: 0 <= i < j < |q| ==> q[i].id != q[j].id
  {
    if q != [] {
      DistinctAt(q[1..]);
      forall j | 0 < j < |q| ensures q[j].id in IdSet(q[1..]) { IdSetAt(q[1..], j - 1); }
    }
  }

  lemma {:induction false} IdSetAt(q: seq<Task>, k: nat)
    requires k < |q|
    ensures q[k].id in IdSet(q)
  {
    if k > 0 { IdSetAt(q[1..], k - 1); }
  }

  // What the recursive definitions do, in terms of the index that the code works with.

  lemma AtIndex(q: seq<Task>, k: nat)
    requires k < |q| && forall i :: 0 <= i < k ==> q[i].id != q[k].id
    ensures q[k].id in IdSet(q) && Lookup(q, q[k].id) == q[k]
    ensures Remove(q, q[k].id) == q[..k] + q[k + 1..]
    ensures Retried(q, q[k].id) == q[k := q[k].(attempts := q[k].attempts + 1)]
  {
    RemoveAtIndex(q, k);
    RetriedAtIndex(q, k);
  }

  lemma {:induction false} RemoveAtIndex(q: seq<Task>, k: nat)
    requires k < |q| && forall i :: 0 <= i < k ==> q[i].id != q[k].id
    ensures q[k].id in IdSet(q) && Lookup(q, q[k].id) == q[k]
    ensures Remove(q, q[k].id) == q[..k] + q[k + 1..]
  {
    if k > 0 {
      assert q[0].id != q[k].id;
      RemoveAtIndex(q[1..], k - 1);
      assert q[..k] == [q[0]] + q[1..][..k - 1];
    }
  }

  lemma {:induction false} RetriedAtIndex(q: seq<Task>, k: nat)
    requires k < |q| && forall i :: 0 <= i < k ==> q[i].id != q[k].id
    ensures Retried(q, q[k].id) == q[k := q[k].(attempts := q[k].attempts + 1)]
  {
    if k > 0 {
      assert q[0].id != q[k].id;
      RetriedAtIndex(q[1..], k - 1);
    }
  }

  lemma OnlyOne(q: seq<Task>, k: nat)
    requires DistinctTasks(q) && k < |q|
    ensures forall i :: 0 <= i < |q| && i != k ==> q[i].id != q[k].id
    ensures q[k].id in IdSet(q) && Lookup(q, q[k].id) == q[k]
    ensures Retried(q, q[k].id) == q[k := q[k].(attempts := q[k].attempts + 1)]
  {
    DistinctAt(q);
    AtIndex(q, k);
  }

  lemma {:induction false} NotFound(q: seq<Task>, id: string)
    requires forall i :: 0 <= i < |q| ==> q[i].id != id
    ensures Remove(q, id) == q
  {
    if q != [] { NotFound(q[1..], id); }
  }

  class NovuSubscriberQueueService {
    var queue: seq<SubscriberTask>
    var processing: bool
    var processingTasks: set<string>
    var metrics: Metrics
    var novuFailureCount: nat
    var circuitBreakerOpen: bool

    ghost function View(): Queue
      reads this, queue
    {
      Queue(Values(queue), processing, processingTasks, metrics, novuFailureCount, circuitBreakerOpen)
    }

    /** Ids are distinct, hence so are the task objects. */
    ghost predicate Valid()
      reads this, queue
    {
      DistinctTasks(Values(queue))
    }

    constructor (restored: seq<SubscriberTask>, metrics: Metrics)
      requires DistinctTasks(Values(restored))
      ensures Valid() && View() == Started(Values(restored), metrics) && queue == restored
    {
      queue, processing, processingTasks := restored, false, {};
      novuFailureCount, circuitBreakerOpen := 0, false;
      this.metrics := metrics;
    }

    method Enqueue(id: string, kind: TaskType, now: int)
      requires Valid() && id !in IdSet(Values(queue))
      modifies this
      ensures Valid() && View() == Step(old(View()), Event.Enqueue(id, kind, now))
    {
      EnqueueFacts(Values(queue), Task(id, kind, now, 0));
      var task := new SubscriberTask(id, kind, now);
      ValuesAt(queue);
      queue := queue + [task];
      ValuesAt(queue);
      assert Values(queue) == old(Values(queue)) + [task.Value()];
    }

    /** The timer callback up to the point where all picked tasks have been started. */
    method OnInterval() returns (started: seq<SubscriberTask>)
      requires Valid()
      modifies this`processing, this`processingTasks
      ensures Valid() && View() == Step(old(View()), Tick)
      ensures View() != old(View()) ==> Values(started) == Picks(old(View()))
      ensures circuitBreakerOpen || old(processing) ==> started == [] && processingTasks == old(processingTasks)
      ensures !circuitBreakerOpen && !old(processing) && old(processingTasks) == {} ==>
        && started == queue[..if |queue| < 3 then |queue| else 3]
        && processingTasks == (set task | task in started :: task.id)
        && (processing <==> started != [])
    {
      started := [];
      if circuitBreakerOpen || |queue| == 0 || processing { return; }
      ghost var s := View();
      started := ProcessBatch();
      IdsOfObjects(started);
      TickStarts(s, Values(started));
      assert View() == s.(processing := processing, running := processingTasks);
    }

    /** `processBatch` up to its `await`. */
    method ProcessBatch() returns (started: seq<SubscriberTask>)
      requires !processing
      modifies this`processing, this`processingTasks
      ensures Values(started) == Picks(old(View())) && |started| == |Picks(old(View()))|
      ensures processing <==> started != []
      ensures processingTasks == old(processingTasks) + set task | task in started :: task.id
      ensures old(processingTasks) == {} ==> started == queue[..if |queue| < 3 then |queue| else 3]
    {
      started := PickTasks();
      if |started| > 0 {
        processing := true;
        MarkProcessing(started);
      }
    }

    method PickTasks() returns (picked: seq<SubscriberTask>)
      ensures Values(picked) == Picks(View()) && |picked| == |Picks(View())|
      ensures processingTasks == {} ==> picked == queue[..if |queue| < 3 then |queue| else 3]
    {
      var availableSlots := CONCURRENCY - |processingTasks|;
      if availableSlots <= 0 { return []; }
      var waiting := FilterWaiting();
      picked := if |waiting| <= availableSlots then waiting else waiting[..availableSlots];
      ValuesAt(waiting);
      ValuesAt(picked);
    }

    method MarkProcessing(started: seq<SubscriberTask>)
      modifies this`processingTasks
      ensures processingTasks == old(processingTasks) + set task | task in started :: task.id
    {
      IdsOfObjects(started);
      var i := 0;
      while i < |started|
        invariant 0 <= i <= |started|
        invariant processingTasks + IdSet(Values(started[i..])) == old(processingTasks) + IdSet(Values(started))
      {
        processingTasks := processingTasks + {started[i].id};
        assert started[i..][1..] == started[i + 1..];
        i := i + 1;
      }
    }

    method FilterWaiting() returns (waiting: seq<SubscriberTask>)
      ensures Values(waiting) == Waiting(Values(queue), processingTasks)
      ensures processingTasks == {} ==> waiting == queue
    {
      waiting := [];
      var i := |queue|;
      while i > 0
        invariant 0 <= i <= |queue|
        invariant Values(waiting) == Waiting(Values(queue[i..]), processingTasks)
        invariant processingTasks == {} ==> waiting == queue[i..]
      {
        i := i - 1;
        assert queue[i..][1..] == queue[i + 1..];
        if queue[i].id !in processingTasks {
          waiting := [queue[i]] + waiting;
        }
      }
      assert queue[0..] == queue;
    }

    method RemoveTaskFromQueue(taskId: string)
      modifies this`queue
      ensures Values(queue) == Remove(old(Values(queue)), taskId)
    {
      ghost var q := Values(queue);
      ValuesAt(queue);
      var index := 0;
      while index < |queue| && queue[index].id != taskId
        invariant 0 <= index <= |queue|
        invariant forall i :: 0 <= i < index ==> q[i].id != taskId
      {
        index := index + 1;
      }
      if index != |queue| {
        AtIndex(q, index);
        ValuesWithout(queue, index);
        queue := queue[..index] + queue[index + 1..];
      } else {
        NotFound(q, taskId);
      }
    }

    method UpdateMetrics(kind: TaskType, success: bool, duration: int)
      modifies this`metrics
      ensures metrics == if success then CountSuccess(old(metrics), kind, duration) else CountFailure(old(metrics))
    {
      if success {
        metrics := metrics.(totalProcessed := metrics.totalProcessed + 1);
        match kind {
          case Create => metrics := metrics.(createCount := metrics.createCount + 1);
          case Update => metrics := metrics.(updateCount := metrics.updateCount + 1);
          case Delete => metrics := metrics.(deleteCount := metrics.deleteCount + 1);
        }
        var total := metrics.averageProcessingTime * (metrics.totalProcessed - 1) as real + duration as real;
        metrics := metrics.(averageProcessingTime := total / metrics.totalProcessed as real);
      } else {
        metrics := metrics.(totalFailed := metrics.totalFailed + 1);
      }
    }

    lemma Locate(task: SubscriberTask) returns (k: nat)
      requires Valid() && task in queue
      ensures k < |queue| && queue[k] == task && |Values(queue)| == |queue|
      ensures forall i :: 0 <= i < |queue| && i != k ==> Values(queue)[i].id != task.id
      ensures task.id in IdSet(Values(queue)) && Lookup(Values(queue), task.id) == task.Value()
      ensures Retried(Values(queue), task.id)
           == Values(queue)[k := task.Value().(attempts := task.attempts + 1)]
    {
      k :| 0 <= k < |queue| && queue[k] == task;
      ValuesAt(queue);
      assert Values(queue)[k] == task.Value();
      OnlyOne(Values(queue), k);
    }

    /** `processTask` from the moment its Novu call has succeeded. */
    method TaskSucceeded(task: SubscriberTask, duration: int)
      requires Valid() && task in queue && task.id in processingTasks
      modifies this
      ensures Valid() && View() == Step(old(View()), Succeeded(task.id, duration))
    {
      ghost var k := Locate(task);
      RemoveFacts(Values(queue), task.id);
      RemoveTaskFromQueue(task.id);
      processingTasks := processingTasks - {task.id};
      novuFailureCount := 0;
      UpdateMetrics(task.kind, true, duration);
    }

    /** `handleTaskFailure`, then the release of the slot. */
    method TaskFailed(task: SubscriberTask, breakerError: bool)
      requires Valid() && task in queue && task.id in processingTasks
      modifies this, task`attempts
      ensures Valid() && View() == Step(old(View()), Failed(task.id, breakerError))
    {
      ghost var q := Values(queue);
      ghost var k := Locate(task);
      CountAttempt(task);
      RemoveIgnoresAttempts(q, task.id);
      RemoveFacts(q, task.id);
      RetriedFacts(q, task.id);
      HandleTaskFailure(task, breakerError);
      processingTasks := processingTasks - {task.id};
    }

    method CountAttempt(task: SubscriberTask)
      requires Valid() && task in queue
      modifies task`attempts
      ensures task.attempts == old(task.attempts) + 1
      ensures Values(queue) == Retried(old(Values(queue)), task.id)
    {
      ghost var k := Locate(task);
      ValuesAt(queue);
      task.attempts := task.attempts + 1;
      ValuesAt(queue);
    }

    /** The rest of `handleTaskFailure`, once the attempt has been counted. */
    method HandleTaskFailure(task: SubscriberTask, breakerError: bool)
      modifies this
      ensures processing == old(processing) && processingTasks == old(processingTasks)
      ensures novuFailureCount == old(novuFailureCount) + if breakerError then 0 else 1
      ensures circuitBreakerOpen
           == (old(circuitBreakerOpen) || (!breakerError && novuFailureCount >= CIRCUIT_BREAKER_THRESHOLD))
      ensures breakerError || task.attempts >= MAX_RETRIES ==>
        Values(queue) == Remove(old(Values(queue)), task.id) && metrics == CountFailure(old(metrics))
      ensures !breakerError && task.attempts < MAX_RETRIES ==>
        queue == old(queue) && metrics == old(metrics).(totalRetried := old(metrics).totalRetried + 1)
    {
      if breakerError {
        RemoveTaskFromQueue(task.id);
        UpdateMetrics(task.kind, false, 0);
        return;
      }
      novuFailureCount := novuFailureCount + 1;
      if task.attempts >= MAX_RETRIES {
        RemoveTaskFromQueue(task.id);
        UpdateMetrics(task.kind, false, 0);
      } else {
        metrics := metrics.(totalRetried := metrics.totalRetried + 1);
      }
      if novuFailureCount >= CIRCUIT_BREAKER_THRESHOLD {
        circuitBreakerOpen := true;
      }
    }

    method SettleBatch()
      requires processingTasks == {}
      modifies this`processing
      ensures View() == Step(old(View()), BatchSettled)
    {
      processing := false;
    }

    method BreakerTimerFired()
      requires circuitBreakerOpen
      modifies this`circuitBreakerOpen, this`novuFailureCount
      ensures View() == Step(old(View()), BreakerReset)
    {
      circuitBreakerOpen := false;
      novuFailureCount := 0;
    }
  }

  lemma {:induction false} RemoveIgnoresAttempts(q: seq<Task>, id: string)
    ensures Remove(Retried(q, id), id) == Remove(q, id)
  {
    if q != [] { RemoveIgnoresAttempts(q[1..], id); }
  }
}
