/**
 What survives a crash of the process that holds the Novu subscriber queue.

 `enqueue` serialises the queue at once and sends it to Redis without waiting; writes land in the
 order in which they were sent.  A graceful shutdown sends one more.  A crash drops whatever has not
 landed.  On start the backup is read, unless its key has expired, and tasks of 24 hours or more go.
*/
module NovuRecovery {
  import opened Wrappers
  import opened NovuQueue

  const DAY := 24 * 60 * 60 * 1000

  /** `stored == []` is the absent key; `used` and `finished` are history and not part of the program. */
  datatype System = System(
    live: Queue, pending: seq<seq<Task>>, stored: seq<Task>, storedAt: int,
    used: set<string>, finished: set<string>, clock: int)

  const BOOT := System(Started([], NO_METRICS), [], [], 0, {}, {}, 0)

  datatype Happening =
    | Work(e: Event, now: int)
    | Land(now: int)
    | Shutdown(now: int)
    | Restart(metrics: Metrics, now: int)

  function Young(q: seq<Task>, now: int): seq<Task> {
    if q == [] then []
    else if now - q[0].createdAt < DAY then [q[0]] + Young(q[1..], now)
    else Young(q[1..], now)
  }

  /** The queue that a start at time `now` finds. */
  function Restored(stored: seq<Task>, storedAt: int, now: int): seq<Task> {
    if now < storedAt + DAY then Young(stored, now) else []
  }

  function Next(s: System, h: Happening): System {
    var s' := s.(clock := h.now);
    match h
    case Work(e, _) =>
      var live := Step(s.live, e);
      s'.(live := live,
          pending := if e.Enqueue? then s.pending + [live.queue] else s.pending,
          used := s.used + if e.Enqueue? then {e.id} else {},
          finished := s.finished + (IdSet(s.live.queue) - IdSet(live.queue)))
    case Land(now) =>
      if s.pending == [] then s' else s'.(stored := s.pending[0], storedAt := now, pending := s.pending[1..])
    case Shutdown(_) => s'.(pending := s.pending + [s.live.queue])
    case Restart(metrics, now) =>
      s'.(live := Started(Restored(s.stored, s.storedAt, now), metrics), pending := [])
  }

  /** Time does not go back, and new tasks get new ids and the current time. */
  ghost predicate Possible(s: System, h: Happening) {
    s.clock <= h.now && (h.Work? && h.e.Enqueue? ==> h.e.id !in s.used && h.e.now == h.now)
  }

  function After(hs: seq<Happening>): System {
    if hs == [] then BOOT else Next(After(hs[..|hs| - 1]), hs[|hs| - 1])
  }

  ghost predicate AllPossible(hs: seq<Happening>) {
    hs != [] ==> AllPossible(hs[..|hs| - 1]) && Possible(After(hs[..|hs| - 1]), hs[|hs| - 1])
  }

  // ----- How a snapshot compares to the live queue -------------------------------------------------

  ghost predicate Older(a: Task, b: Task) {
    a.id == b.id && a.kind == b.kind && a.createdAt == b.createdAt && a.attempts <= b.attempts
  }

  /** Every live task is in the snapshot, with no more attempts. */
  ghost predicate Backs(snapshot: seq<Task>, q: seq<Task>) {
    forall x :: x in IdSet(q) ==> x in IdSet(snapshot) && Older(Lookup(snapshot, x), Lookup(q, x))
  }

  ghost predicate Accounted(t: Task, q: seq<Task>, finished: set<string>) {
    t.id in finished || (t.id in IdSet(q) && Older(t, Lookup(q, t.id)))
  }

  /** A snapshot is well formed, and what it holds is live, finished, or too old to come back. */
  ghost predicate Honest(snapshot: seq<Task>, s: System) {
    && DistinctTasks(snapshot) && Fresh(snapshot) && IdSet(snapshot) <= s.used
    && (forall x :: x in IdSet(snapshot) ==>
          var t := Lookup(snapshot, x);
          t.createdAt <= s.clock && (Accounted(t, s.live.queue, s.finished) || s.clock - t.createdAt >= DAY))
  }

  function Latest(s: System): seq<Task> {
    if s.pending == [] then s.stored else s.pending[|s.pending| - 1]
  }

  ghost predicate SystemInv(s: System) {
    && Inv(s.live) && Honest(s.live.queue, s) && Honest(s.stored, s)
    && (forall i :: 0 <= i < |s.pending| ==> Honest(s.pending[i], s))
    && Backs(Latest(s), s.live.queue)
    && (forall x :: x in IdSet(s.stored) ==> Lookup(s.stored, x).createdAt <= s.storedAt)
  }

  // ----- Looking tasks up in changed queues ----------------------------------------------------------

  lemma {:induction false} LookupId(q: seq<Task>, id: string)
    requires id in IdSet(q)
    ensures Lookup(q, id).id == id
  {
    if q[0].id != id { LookupId(q[1..], id); }
  }

  lemma {:induction false} LookupAfter(q: seq<Task>, id: string)
    requires DistinctTasks(q) && id in IdSet(q)
    ensures forall x :: x in IdSet(Remove(q, id)) ==> x in IdSet(q) && Lookup(Remove(q, id), x) == Lookup(q, x)
    ensures forall x :: x in IdSet(q) ==>
      && x in IdSet(Retried(q, id))
      && Lookup(Retried(q, id), x)
         == if x == id then Lookup(q, x).(attempts := Lookup(q, x).attempts + 1) else Lookup(q, x)
  {
    if q[0].id != id { LookupAfter(q[1..], id); }
  }

  lemma {:induction false} LookupAppended(q: seq<Task>, t: Task)
    requires t.id !in IdSet(q)
    ensures IdSet(q + [t]) == IdSet(q) + {t.id} && Lookup(q + [t], t.id) == t
    ensures forall x :: x in IdSet(q) ==> Lookup(q + [t], x) == Lookup(q, x)
  {
    if q == [] {
      assert q + [t] == [t];
    } else {
      LookupAppended(q[1..], t);
      assert (q + [t])[1..] == q[1..] + [t];
    }
  }

  lemma {:induction false} LookupYoung(q: seq<Task>, now: int)
    requires DistinctTasks(q)
    ensures DistinctTasks(Young(q, now)) && (Fresh(q) ==> Fresh(Young(q, now)))
    ensures forall x :: x in IdSet(Young(q, now)) <==> x in IdSet(q) && now - Lookup(q, x).createdAt < DAY
    ensures forall x :: x in IdSet(Young(q, now)) ==> Lookup(Young(q, now), x) == Lookup(q, x)
  {
    if q != [] { LookupYoung(q[1..], now); }
  }

  /** One event other than an arrival: tasks leave or gain attempts, nothing else. */
  ghost predicate Ages(q: seq<Task>, q': seq<Task>) {
    forall x :: x in IdSet(q') ==> x in IdSet(q) && Older(Lookup(q, x), Lookup(q', x))
  }

  lemma QueueAfter(s: Queue, e: Event)
    requires Inv(s) && !e.Enqueue?
    ensures var q := Step(s, e).queue;
      || q == s.queue
      || ((e.Succeeded? || e.Failed?) && e.id in s.running
          && (q == Remove(s.queue, e.id) || q == Retried(s.queue, e.id)))
  {
    match e
    case Failed(id, _) => if id in s.running { CompletionFacts(s, id); }
    case _ =>
  }

  lemma WorkAges(s: Queue, e: Event)
    requires Inv(s) && !e.Enqueue?
    ensures Ages(s.queue, Step(s, e).queue)
  {
    QueueAfter(s, e);
    NothingAges(s.queue);
    if (e.Succeeded? || e.Failed?) && e.id in s.running {
      CompletionFacts(s, e.id);
      CompletionAges(s.queue, e.id);
    }
  }

  lemma NothingAges(q: seq<Task>)
    ensures Ages(q, q)
  {
    forall x | x in IdSet(q) ensures Older(Lookup(q, x), Lookup(q, x)) {}
  }

  lemma CompletionAges(q: seq<Task>, id: string)
    requires DistinctTasks(q) && id in IdSet(q)
    requires IdSet(Remove(q, id)) == IdSet(q) - {id} && IdSet(Retried(q, id)) == IdSet(q)
    ensures Ages(q, Remove(q, id)) && Ages(q, Retried(q, id))
  {
    LookupAfter(q, id);
    NothingAges(q);
  }

  // ----- The invariant ---------------------------------------------------------------------------------

  /** Time passes, and what was live is finished or still live. */
  ghost predicate Follows(s: System, s': System) {
    && s.clock <= s'.clock && s.used <= s'.used && s.finished <= s'.finished
    && forall x :: x in IdSet(s.live.queue) ==>
         x in s'.finished || (x in IdSet(s'.live.queue) && Older(Lookup(s.live.queue, x), Lookup(s'.live.queue, x)))
  }

  lemma StaysHonest(snapshot: seq<Task>, s: System, s': System)
    requires Honest(snapshot, s) && Follows(s, s')
    ensures Honest(snapshot, s')
  {
  }

  lemma PendingStayHonest(s: System, s': System)
    requires Follows(s, s') && forall i :: 0 <= i < |s.pending| ==> Honest(s.pending[i], s)
    ensures forall i :: 0 <= i < |s.pending| ==> Honest(s.pending[i], s')
  {
    forall i | 0 <= i < |s.pending| { StaysHonest(s.pending[i], s, s'); }
  }

  lemma WorkFollows(s: System, s': System)
    requires s.clock <= s'.clock && s'.used == s.used && Ages(s.live.queue, s'.live.queue)
    requires s'.finished == s.finished + (IdSet(s.live.queue) - IdSet(s'.live.queue))
    ensures Follows(s, s')
  {
  }

  lemma BacksAll(snapshot: seq<Task>, q: seq<Task>, q': seq<Task>)
    requires Backs(snapshot, q) && Ages(q, q')
    ensures Backs(snapshot, q')
  {
  }

  /** The system when the live queue has moved on to `live`. */
  function Moved(s: System, live: Queue, now: int): System {
    s.(clock := now, live := live, finished := s.finished + (IdSet(s.live.queue) - IdSet(live.queue)))
  }

  lemma AgedKeeps(s: System, live: Queue, now: int)
    requires SystemInv(s) && Inv(live) && Ages(s.live.queue, live.queue) && s.clock <= now
    ensures SystemInv(Moved(s, live, now))
  {
    var s' := Moved(s, live, now);
    AgedIsHonest(s, s');
    WorkFollows(s, s');
    StaysHonest(s.stored, s, s');
    PendingStayHonest(s, s');
    BacksAll(Latest(s), s.live.queue, s'.live.queue);
  }

  lemma WorkMoves(s: System, h: Happening)
    requires h.Work? && !h.e.Enqueue?
    ensures Next(s, h) == Moved(s, Step(s.live, h.e), h.now)
  {
    assert s.used + {} == s.used;
  }

  lemma WorkKeeps(s: System, h: Happening)
    requires SystemInv(s) && Possible(s, h) && h.Work? && !h.e.Enqueue?
    ensures SystemInv(Next(s, h))
  {
    WorkMoves(s, h);
    StepKeepsInv(s.live, h.e);
    WorkAges(s.live, h.e);
    AgedKeeps(s, Step(s.live, h.e), h.now);
  }

  lemma AgedIsHonest(s: System, s': System)
    requires Honest(s.live.queue, s) && Inv(s'.live) && Ages(s.live.queue, s'.live.queue)
    requires s.clock <= s'.clock && s.used <= s'.used
    ensures Honest(s'.live.queue, s')
  {
    var q := s'.live.queue;
    forall x | x in IdSet(q)
      ensures x in s'.used && Lookup(q, x).createdAt <= s'.clock && Accounted(Lookup(q, x), q, s'.finished)
    {
      LookupId(q, x);
    }
  }

  lemma ArrivalKeeps(s: System, h: Happening)
    requires SystemInv(s) && Possible(s, h) && h.Work? && h.e.Enqueue?
    ensures SystemInv(Next(s, h))
  {
    var s', q := Next(s, h), s.live.queue;
    var t := Task(h.e.id, h.e.kind, h.e.now, 0);
    StepKeepsInv(s.live, h.e);
    LookupAppended(q, t);
    var q' := s'.live.queue;
    forall x | x in IdSet(q')
      ensures x in s'.used && Lookup(q', x).createdAt <= s'.clock && Accounted(Lookup(q', x), q', s'.finished)
    {
      LookupId(q', x);
    }
    StaysHonest(s.stored, s, s');
    forall i | 0 <= i < |s'.pending| ensures Honest(s'.pending[i], s') {
      if i < |s.pending| { StaysHonest(s.pending[i], s, s'); }
    }
  }

  /** The restored queue is well formed, and it is what is young of the backup. */
  lemma RestoredFacts(s: System, now: int)
    requires SystemInv(s) && s.clock <= now
    ensures var r := Restored(s.stored, s.storedAt, now);
      && DistinctTasks(r) && Fresh(r)
      && forall x :: x in IdSet(r) <==> x in IdSet(s.stored) && now - Lookup(s.stored, x).createdAt < DAY
    ensures var r := Restored(s.stored, s.storedAt, now);
      forall x :: x in IdSet(r) ==> Lookup(r, x) == Lookup(s.stored, x) && Lookup(r, x).id == x
  {
    LookupYoung(s.stored, now);
    forall x | x in IdSet(s.stored) ensures Lookup(s.stored, x).id == x { LookupId(s.stored, x); }
  }

  lemma RestartHonest(s: System, s': System)
    requires SystemInv(s) && s.clock <= s'.clock && s'.used == s.used
    requires forall x :: x in IdSet(s.stored) && s'.clock - Lookup(s.stored, x).createdAt < DAY ==>
      x in IdSet(s'.live.queue) && Older(Lookup(s.stored, x), Lookup(s'.live.queue, x)) && Lookup(s.stored, x).id == x
    ensures Honest(s.stored, s')
  {
  }

  lemma RestartKeeps(s: System, h: Happening)
    requires SystemInv(s) && Possible(s, h) && h.Restart?
    ensures SystemInv(Next(s, h))
  {
    var s' := Next(s, h);
    RestoredFacts(s, h.now);
    RestartHonest(s, s');
    RestoredHonest(s.stored, s', s'.live.queue);
  }

  lemma RestoredHonest(snapshot: seq<Task>, s: System, r: seq<Task>)
    requires Honest(snapshot, s) && r == s.live.queue && DistinctTasks(r) && Fresh(r)
    requires forall x :: x in IdSet(r) ==> x in IdSet(snapshot) && Lookup(r, x) == Lookup(snapshot, x)
    requires forall x :: x in IdSet(r) ==> Lookup(r, x).id == x
    ensures Honest(r, s) && Backs(snapshot, r)
  {
    NothingAges(r);
  }

  lemma NextKeeps(s: System, h: Happening)
    requires SystemInv(s) && Possible(s, h)
    ensures SystemInv(Next(s, h))
  {
    if h.Work? && h.e.Enqueue? {
      ArrivalKeeps(s, h);
    } else if h.Work? {
      WorkKeeps(s, h);
    } else if h.Restart? {
      RestartKeeps(s, h);
    } else if h.Land? {
      LandKeeps(s, h);
    } else {
      ShutdownKeeps(s, h);
    }
  }

  lemma TimeKeepsHonest(snapshot: seq<Task>, s: System, s': System)
    requires Honest(snapshot, s)
    requires s' == s.(clock := s'.clock, pending := s'.pending, stored := s'.stored, storedAt := s'.storedAt)
    requires s.clock <= s'.clock
    ensures Honest(snapshot, s')
  {
    forall x | x in IdSet(s.live.queue) ensures Older(Lookup(s.live.queue, x), Lookup(s.live.queue, x)) {}
    StaysHonest(snapshot, s, s');
  }

  lemma LandKeeps(s: System, h: Happening)
    requires SystemInv(s) && Possible(s, h) && h.Land?
    ensures SystemInv(Next(s, h))
  {
    var s' := Next(s, h);
    TimeKeepsHonest(s.live.queue, s, s');
    TimeKeepsHonest(s.stored, s, s');
    forall i | 0 <= i < |s.pending| ensures Honest(s.pending[i], s') {
      TimeKeepsHonest(s.pending[i], s, s');
    }
    if s.pending != [] {
      assert Honest(s.pending[0], s');
      forall i | 0 <= i < |s'.pending| ensures Honest(s'.pending[i], s') {
        assert s'.pending[i] == s.pending[i + 1];
      }
      assert Latest(s') == Latest(s);
    }
  }

  lemma ShutdownKeeps(s: System, h: Happening)
    requires SystemInv(s) && Possible(s, h) && h.Shutdown?
    ensures SystemInv(Next(s, h))
  {
    var s', q := Next(s, h), s.live.queue;
    TimeKeepsHonest(q, s, s');
    TimeKeepsHonest(s.stored, s, s');
    forall i | 0 <= i < |s'.pending| ensures Honest(s'.pending[i], s') {
      if i < |s.pending| { TimeKeepsHonest(s.pending[i], s, s'); } else { assert s'.pending[i] == q; }
    }
    assert Latest(s') == q;
    NothingAges(q);
  }

  lemma {:induction false} AlwaysSound(hs: seq<Happening>)
    requires AllPossible(hs)
    ensures SystemInv(After(hs))
  {
    if hs != [] {
      AlwaysSound(hs[..|hs| - 1]);
      NextKeeps(After(hs[..|hs| - 1]), hs[|hs| - 1]);
    }
  }

  /**
   A restart after any history, when the writes sent so far have landed: every unfinished task that
   is younger than a day comes back with no more attempts than it had, and whatever else comes back
   had already finished.
  */
  lemma CrashRecovery(hs: seq<Happening>, metrics: Metrics, now: int)
    requires AllPossible(hs) && After(hs).clock <= now
    ensures var s := After(hs);
      var r := Next(s, Restart(metrics, now)).live.queue;
      && Restorable(r)
      && (s.pending == [] ==>
            forall x :: x in IdSet(s.live.queue) && now - Lookup(s.live.queue, x).createdAt < DAY ==>
              x in IdSet(r) && Older(Lookup(r, x), Lookup(s.live.queue, x)))
      && (forall x :: x in IdSet(r) ==> Accounted(Lookup(r, x), s.live.queue, s.finished))
  {
    AlwaysSound(hs);
    RecoveryFrom(After(hs), now);
  }

  lemma RecoveryFrom(s: System, now: int)
    requires SystemInv(s) && s.clock <= now
    ensures var r := Restored(s.stored, s.storedAt, now);
      && Restorable(r)
      && (s.pending == [] ==>
            forall x :: x in IdSet(s.live.queue) && now - Lookup(s.live.queue, x).createdAt < DAY ==>
              x in IdSet(r) && Older(Lookup(r, x), Lookup(s.live.queue, x)))
      && (forall x :: x in IdSet(r) ==> Accounted(Lookup(r, x), s.live.queue, s.finished))
  {
    RestoredFacts(s, now);
  }

  // ----- One task, as soon as the write of its arrival has landed ----------------------------------------------

  /** How many writes have to land until the one that the arrival of `x` sent has; `None` if it is not on its way. */
  function Awaited(hs: seq<Happening>, x: string): Option<nat> {
    if hs == [] then None
    else AwaitedNext(After(hs[..|hs| - 1]), hs[|hs| - 1], x, Awaited(hs[..|hs| - 1], x))
  }

  function AwaitedNext(s: System, h: Happening, x: string, n: Option<nat>): Option<nat> {
    match h
    case Work(e, _) => if e.Enqueue? && e.id == x then Some(|s.pending| + 1) else n
    case Land(_) => if s.pending != [] && n.Some? && n.value > 0 then Some(n.value - 1) else n
    case Shutdown(_) => n
    case Restart(_, _) => if n == Some(0) then n else None
  }

  /** The snapshot holds the live task `x`, with no more attempts. */
  ghost predicate BacksTask(snapshot: seq<Task>, q: seq<Task>, x: string) {
    x in IdSet(q) ==> x in IdSet(snapshot) && Older(Lookup(snapshot, x), Lookup(q, x))
  }

  /** All writes from the one of its arrival on hold the task. */
  ghost predicate Covered(s: System, x: string, n: Option<nat>) {
    n.Some? ==>
      && (n.value == 0 ==> BacksTask(s.stored, s.live.queue, x))
      && (forall i :: 0 <= i < |s.pending| && n.value <= i + 1 ==> BacksTask(s.pending[i], s.live.queue, x))
  }

  lemma OwnSnapshot(q: seq<Task>, x: string)
    ensures BacksTask(q, q, x)
  {
  }

  lemma BacksAged(snapshot: seq<Task>, q: seq<Task>, q': seq<Task>, x: string)
    requires BacksTask(snapshot, q, x) && Ages(q, q')
    ensures BacksTask(snapshot, q', x)
  {
  }

  lemma CoveredWork(s: System, h: Happening, x: string, n: Option<nat>)
    requires SystemInv(s) && Possible(s, h) && h.Work? && !h.e.Enqueue? && Covered(s, x, n)
    ensures Covered(Next(s, h), x, n)
  {
    WorkAges(s.live, h.e);
    var q, q' := s.live.queue, Next(s, h).live.queue;
    if n == Some(0) { BacksAged(s.stored, q, q', x); }
    forall i | 0 <= i < |s.pending| && n.Some? && n.value <= i + 1 ensures BacksTask(s.pending[i], q', x) {
      BacksAged(s.pending[i], q, q', x);
    }
  }

  lemma CoveredArrival(s: System, t: Task, now: int, x: string, n: Option<nat>)
    requires t.id !in IdSet(s.live.queue) && t.attempts == 0 && Covered(s, x, n)
    ensures var h := Work(Enqueue(t.id, t.kind, t.createdAt), now);
      Covered(Next(s, h), x, AwaitedNext(s, h, x, n))
  {
    var h := Work(Enqueue(t.id, t.kind, t.createdAt), now);
    var s', q, n' := Next(s, h), s.live.queue, AwaitedNext(s, h, x, n);
    assert s'.live.queue == q + [t];
    LookupAppended(q, t);
    OwnSnapshot(q + [t], x);
    if n'.Some? {
      if x != t.id && n.value == 0 { BacksAppended(s.stored, q, t, x); }
      forall i | 0 <= i < |s'.pending| && n'.value <= i + 1 ensures BacksTask(s'.pending[i], q + [t], x) {
        if i < |s.pending| { BacksAppended(s.pending[i], q, t, x); }
      }
    }
  }

  lemma BacksAppended(snapshot: seq<Task>, q: seq<Task>, t: Task, x: string)
    requires BacksTask(snapshot, q, x) && t.id !in IdSet(q) && x != t.id
    ensures BacksTask(snapshot, q + [t], x)
  {
    LookupAppended(q, t);
  }

  lemma CoveredLand(s: System, now: int, x: string, n: Option<nat>)
    requires Covered(s, x, n)
    ensures Covered(Next(s, Land(now)), x, AwaitedNext(s, Land(now), x, n))
  {
    var s', n' := Next(s, Land(now)), AwaitedNext(s, Land(now), x, n);
    if s.pending != [] && n.Some? {
      forall i | 0 <= i < |s'.pending| && n'.value <= i + 1 ensures BacksTask(s'.pending[i], s'.live.queue, x) {
        assert s'.pending[i] == s.pending[i + 1];
      }
    }
  }

  lemma CoveredShutdown(s: System, now: int, x: string, n: Option<nat>)
    requires Covered(s, x, n)
    ensures Covered(Next(s, Shutdown(now)), x, n)
  {
    OwnSnapshot(s.live.queue, x);
  }

  lemma CoveredRestart(s: System, metrics: Metrics, now: int, x: string, n: Option<nat>)
    requires DistinctTasks(s.stored)
    ensures var h := Restart(metrics, now);
      Covered(Next(s, h), x, AwaitedNext(s, h, x, n))
  {
    LookupYoung(s.stored, now);
    if x in IdSet(Next(s, Restart(metrics, now)).live.queue) {
      assert Older(Lookup(s.stored, x), Lookup(s.stored, x)) by { LookupId(s.stored, x); }
    }
  }

  lemma CoveredNext(s: System, h: Happening, x: string, n: Option<nat>)
    requires SystemInv(s) && Possible(s, h) && Covered(s, x, n)
    ensures Covered(Next(s, h), x, AwaitedNext(s, h, x, n))
  {
    match h
    case Work(e, now) =>
      if e.Enqueue? {
        CoveredArrival(s, Task(e.id, e.kind, e.now, 0), now, x, n);
      } else {
        CoveredWork(s, h, x, n);
      }
    case Land(now) => CoveredLand(s, now, x, n);
    case Shutdown(now) => CoveredShutdown(s, now, x, n);
    case Restart(metrics, now) => CoveredRestart(s, metrics, now, x, n);
  }

  lemma {:induction false} AlwaysCovered(hs: seq<Happening>, x: string)
    requires AllPossible(hs)
    ensures Covered(After(hs), x, Awaited(hs, x))
  {
    if hs != [] {
      var before, h := hs[..|hs| - 1], hs[|hs| - 1];
      AlwaysCovered(before, x);
      AlwaysSound(before);
      CoveredNext(After(before), h, x, Awaited(before, x));
    }
  }

  lemma CoveredReturns(s: System, x: string, now: int)
    requires SystemInv(s) && x in IdSet(s.live.queue) && Covered(s, x, Some(0))
    requires now - Lookup(s.live.queue, x).createdAt < DAY
    ensures var r := Restored(s.stored, s.storedAt, now);
      x in IdSet(r) && Older(Lookup(r, x), Lookup(s.live.queue, x))
  {
    LookupYoung(s.stored, now);
  }

  /** A young unfinished task comes back once the write of its own arrival has landed, whatever is still on its way. */
  lemma TaskSurvives(hs: seq<Happening>, x: string, metrics: Metrics, now: int)
    requires AllPossible(hs) && After(hs).clock <= now
    requires x in IdSet(After(hs).live.queue) && Awaited(hs, x) == Some(0)
    requires now - Lookup(After(hs).live.queue, x).createdAt < DAY
    ensures var r := Next(After(hs), Restart(metrics, now)).live.queue;
      x in IdSet(r) && Older(Lookup(r, x), Lookup(After(hs).live.queue, x))
  {
    AlwaysSound(hs);
    AlwaysCovered(hs, x);
    CoveredReturns(After(hs), x, now);
  }

  // ----- The restored queue, in order ------------------------------------------------------------------------------

  function YoungIds(q: seq<Task>, now: int): set<string> {
    set x | x in IdSet(q) && now - Lookup(q, x).createdAt < 86_400_000
  }

  /** The young tasks are the queue with the old ones taken out: same tasks, same order. */
  lemma {:induction false} YoungInOrder(q: seq<Task>, now: int)
    requires DistinctTasks(q)
    ensures Ids(Young(q, now)) == Kept(Ids(q), YoungIds(q, now))
    ensures forall x :: x in IdSet(Young(q, now)) ==> x in IdSet(q) && Lookup(Young(q, now), x) == Lookup(q, x)
  {
    LookupYoung(q, now);
    if q != [] {
      var rest := q[1..];
      YoungInOrder(rest, now);
      IdSetIsIds(rest);
      KeptAgree(Ids(rest), YoungIds(q, now), YoungIds(rest, now));
      assert Ids(q)[1..] == Ids(rest) && Ids(q)[0] == q[0].id;
    }
  }

  lemma {:induction false} AllOld(q: seq<Task>, now: int)
    requires DistinctTasks(q) && forall x :: x in IdSet(q) ==> now - Lookup(q, x).createdAt >= DAY
    ensures Young(q, now) == []
  {
    if q != [] {
      assert Lookup(q, q[0].id) == q[0];
      forall x | x in IdSet(q[1..]) ensures now - Lookup(q[1..], x).createdAt >= DAY {
        assert x in IdSet(q) && Lookup(q, x) == Lookup(q[1..], x);
      }
      AllOld(q[1..], now);
    }
  }

  /** A restart finds the stored tasks younger than a day, in their order; the expiry of the key takes no others. */
  lemma RestoredInOrder(hs: seq<Happening>, metrics: Metrics, now: int)
    requires AllPossible(hs) && After(hs).clock <= now
    ensures var stored, r := After(hs).stored, Next(After(hs), Restart(metrics, now)).live;
      && r == Queue(r.queue, false, {}, metrics, 0, false)
      && r.queue == Young(stored, now) && Ids(r.queue) == Kept(Ids(stored), YoungIds(stored, now))
  {
    AlwaysSound(hs);
    var s := After(hs);
    YoungInOrder(s.stored, now);
    if now >= s.storedAt + DAY { AllOld(s.stored, now); }
  }

  lemma LandStep(s: System, h: Happening)
    requires h.Land?
    ensures Latest(Next(s, h)) == Latest(s) && Next(s, h).live == s.live
  {
  }

  lemma {:induction false} LandingsReach(hs: seq<Happening>, landings: seq<Happening>, q: seq<Task>)
    requires (forall h :: h in landings ==> h.Land?) && Latest(After(hs)) == q
    ensures Latest(After(hs + landings)) == q && After(hs + landings).live == After(hs).live
  {
    if landings == [] {
      assert hs + [] == hs;
    } else {
      var k := |landings| - 1;
      assert landings[k] in landings;
      LandingsReach(hs, landings[..k], q);
      LandStep(After(hs + landings[..k]), landings[k]);
      assert (hs + landings)[..|hs + landings| - 1] == hs + landings[..k];
    }
  }

  /** After a graceful shutdown whose writes have all landed, a restart finds the queue as it was, but for its age. */
  lemma ShutdownIsExact(hs: seq<Happening>, at: int, landings: seq<Happening>, metrics: Metrics, now: int)
    requires (forall h :: h in landings ==> h.Land?) && AllPossible(hs + [Shutdown(at)] + landings)
    requires var t := After(hs + [Shutdown(at)] + landings); t.pending == [] && t.clock <= now
    ensures var t, q := After(hs + [Shutdown(at)] + landings), After(hs).live.queue;
      Next(t, Restart(metrics, now)).live.queue == Young(q, now)
      && Ids(Young(q, now)) == Kept(Ids(q), YoungIds(q, now))
  {
    var shut := hs + [Shutdown(at)];
    assert shut[..|hs|] == hs;
    LandingsReach(shut, landings, After(hs).live.queue);
    RestoredInOrder(shut + landings, metrics, now);
  }

  // ----- The service code -------------------------------------------------------------------------------

  /** `restoreQueueFromRedis`: parse the backup, then keep the tasks that are less than a day old. */
  method RestoreQueueFromRedis(stored: seq<Task>, storedAt: int, now: int) returns (queue: seq<SubscriberTask>)
    ensures Values(queue) == Restored(stored, storedAt, now)
  {
    queue := [];
    if now >= storedAt + DAY { return; }
    var i := |stored|;
    while i > 0
      invariant 0 <= i <= |stored|
      invariant fresh(queue)
      invariant Values(queue) == Young(stored[i..], now)
    {
      i := i - 1;
      assert stored[i..][1..] == stored[i + 1..];
      if now - stored[i].createdAt < DAY {
        var task := new SubscriberTask(stored[i].id, stored[i].kind, stored[i].createdAt);
        task.attempts := stored[i].attempts;
        queue := [task] + queue;
      }
    }
    assert stored[0..] == stored;
  }
}
