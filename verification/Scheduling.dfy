/**
 The execution state machine of scheduled notifications, interleaved with cancellation and updates.

 A tick of the cron job first queries what is due (`Query`) and then executes the result one by one:
 a write of the status PROCESSING (`Start`) and, later, a final write (`Finish`).  Other requests get
 in between.  The type of the schedule is the one that the query has read.  Ticks may overlap, unless
 a lemma says otherwise.
*/
module Scheduling {
  import opened Wrappers
  import Categories
  import CategoryTargeting

  datatype Status = Pending | Scheduled | Processing | Completed | Failed | Cancelled

  datatype Kind = Once | Repeating

  datatype Doc = Doc(
    status: Status, isActive: bool, kind: Kind, nextAt: int,
    executionCount: nat, successCount: nat, failureCount: nat)

  /** A document as the query of some tick has read it. */
  datatype Pick = Pick(id: string, kind: Kind)

  /** `used` is history: ids are not given out twice. */
  datatype System = System(docs: map<string, Doc>, picked: multiset<Pick>, running: multiset<Pick>, used: set<string>)

  const EMPTY := System(map[], multiset{}, multiset{}, {})

  datatype Result = NoTargets | Sent(successes: nat, failures: nat, next: Option<int>) | Broken

  datatype Event =
    | Create(id: string, kind: Kind, nextAt: int)
    | Query(now: int)
    | Start(pick: Pick)
    | Finish(pick: Pick, result: Result)
    | Cancel(id: string)
    | Update(id: string, newKind: Option<Kind>, activity: Option<bool>)
    | Delete(id: string)
    | Crash

  // ----- One atomic step -----------------------------------------------------------------------------------

  predicate Due(d: Doc, now: int) {
    (d.status.Pending? || d.status.Scheduled?) && d.isActive && d.nextAt <= now
  }

  function Picks(docs: map<string, Doc>, now: int): set<Pick> {
    set id | id in docs && Due(docs[id], now) :: Pick(id, docs[id].kind)
  }

  function Begun(d: Doc): Doc {
    d.(status := Processing, executionCount := d.executionCount + 1)
  }

  /** The final write leaves `isActive` alone and always changes the status. */
  function Ended(d: Doc, kind: Kind, r: Result): (t: Doc)
    ensures t.kind == d.kind && t.isActive == d.isActive && t.executionCount == d.executionCount
    ensures t.status.Scheduled? <==> kind.Repeating? && r.Sent? && r.next.Some?
    ensures t.status.Scheduled? || t.status.Completed? || t.status.Failed?
    ensures t.status.Failed? <==> r.Broken?
    ensures t.nextAt == if t.status.Scheduled? then r.next.value else d.nextAt
  {
    match r
    case NoTargets => d.(status := Completed)
    case Broken => d.(status := Failed, failureCount := d.failureCount + 1)
    case Sent(s, f, next) =>
      var d' := d.(successCount := d.successCount + s, failureCount := d.failureCount + f);
      if kind.Repeating? && next.Some? then d'.(nextAt := next.value, status := Scheduled)
      else d'.(status := Completed)
  }

  function Updated(d: Doc, kind: Option<Kind>, isActive: Option<bool>): Doc {
    d.(kind := if kind.Some? then kind.value else d.kind,
       isActive := if isActive.Some? then isActive.value else d.isActive)
  }

  function Put(s: System, id: string, d: Doc): System {
    s.(docs := s.docs[id := d])
  }

  /** A write to a document that has been deleted meanwhile does nothing; impossible events are skipped. */
  function Next(s: System, e: Event): System {
    match e
    case Create(id, kind, nextAt) =>
      if id in s.used then s
      else Put(s, id, Doc(Pending, true, kind, nextAt, 0, 0, 0)).(used := s.used + {id})
    case Query(now) => s.(picked := s.picked + multiset(Picks(s.docs, now)))
    case Start(p) =>
      if p !in s.picked then s
      else
        var t := s.(picked := s.picked - multiset{p}, running := s.running + multiset{p});
        if p.id in s.docs then Put(t, p.id, Begun(s.docs[p.id])) else t
    case Finish(p, r) =>
      if p !in s.running then s
      else
        var t := s.(running := s.running - multiset{p});
        if p.id in s.docs then Put(t, p.id, Ended(s.docs[p.id], p.kind, r)) else t
    case Cancel(id) =>
      if id in s.docs then Put(s, id, s.docs[id].(status := Cancelled, isActive := false)) else s
    case Update(id, kind, isActive) => if id in s.docs then Put(s, id, Updated(s.docs[id], kind, isActive)) else s
    case Delete(id) => s.(docs := s.docs - {id})
    case Crash => s.(picked := multiset{}, running := multiset{})
  }

  function Run(s: System, es: seq<Event>): System {
    if es == [] then s else Next(Run(s, es[..|es| - 1]), es[|es| - 1])
  }

  /** How often the run starts the schedule. */
  function Starts(s: System, es: seq<Event>, id: string): nat {
    if es == [] then 0
    else
      var before, e := es[..|es| - 1], es[|es| - 1];
      Starts(s, before, id) + Began(Run(s, before), e, id)
  }

  /** One if this event starts an execution of the schedule, otherwise zero. */
  function Began(s: System, e: Event, id: string): nat {
    if e.Start? && e.pick.id == id && e.pick in s.picked then 1 else 0
  }

  /** How many executions of the schedule are still to be started, or are running. */
  function Outstanding(m: multiset<Pick>, id: string): nat {
    m[Pick(id, Once)] + m[Pick(id, Repeating)]
  }

  lemma OutstandingMove(m: multiset<Pick>, p: Pick, id: string)
    requires p in m
    ensures Outstanding(m - multiset{p}, id) + (if p.id == id then 1 else 0) == Outstanding(m, id)
    ensures Outstanding(m + multiset{p}, id) == Outstanding(m, id) + if p.id == id then 1 else 0
  {
    match p.kind { case Once => assert p == Pick(p.id, Once); case Repeating => assert p == Pick(p.id, Repeating); }
  }

  lemma OutstandingAdd(m: multiset<Pick>, docs: map<string, Doc>, now: int, id: string)
    ensures Outstanding(m + multiset(Picks(docs, now)), id)
         == Outstanding(m, id) + if id in docs && Due(docs[id], now) then 1 else 0
  {
    var ps := Picks(docs, now);
    assert Pick(id, Once) in ps <==> id in docs && Due(docs[id], now) && docs[id].kind == Once;
    assert Pick(id, Repeating) in ps <==> id in docs && Due(docs[id], now) && docs[id].kind == Repeating;
  }

  lemma OutstandingStart(s: System, p: Pick, id: string)
    requires p in s.picked
    ensures Outstanding(Next(s, Start(p)).picked, id) + Began(s, Start(p), id) == Outstanding(s.picked, id)
    ensures Outstanding(Next(s, Start(p)).running, id) == Outstanding(s.running, id) + Began(s, Start(p), id)
  {
    OutstandingMove(s.picked, p, id);
    assert Next(s, Start(p)).running == s.running + multiset{p};
    match p.kind { case Once => assert p == Pick(p.id, Once); case Repeating => assert p == Pick(p.id, Repeating); }
  }

  /** Picks come only from queries that find the schedule due, and executions only from picks. */
  lemma OutstandingStep(s: System, e: Event, id: string)
    ensures Outstanding(Next(s, e).picked, id) + Began(s, e, id)
         <= Outstanding(s.picked, id) + if e.Query? && id in s.docs && Due(s.docs[id], e.now) then 1 else 0
    ensures Outstanding(Next(s, e).running, id) <= Outstanding(s.running, id) + Began(s, e, id)
    ensures e.Finish? && e.pick.id == id && e.pick in s.running ==> Outstanding(s.running, id) > 0
  {
    match e
    case Query(now) => OutstandingAdd(s.picked, s.docs, now, id);
    case Start(p) => if p in s.picked { OutstandingStart(s, p, id); }
    case Finish(p, _) => if p in s.running { OutstandingMove(s.running, p, id); }
    case _ =>
  }

  ghost predicate QueryFree(es: seq<Event>) {
    forall e :: e in es ==> !e.Query?
  }

  // ----- What a query picks --------------------------------------------------------------------------------------

  /** A query picks a schedule exactly if it is active, pending or scheduled, and its time has come. */
  lemma PickedExactly(s: System, now: int, id: string)
    ensures Outstanding(Next(s, Query(now)).picked, id) == Outstanding(s.picked, id) + 1
       <==> id in s.docs && s.docs[id].isActive && s.docs[id].nextAt <= now
            && (s.docs[id].status == Pending || s.docs[id].status == Scheduled)
    ensures Outstanding(Next(s, Query(now)).picked, id) <= Outstanding(s.picked, id) + 1
    ensures Next(s, Query(now)).picked >= s.picked
  {
    OutstandingAdd(s.picked, s.docs, now, id);
  }

  /** The pick is what a query at this time reads of a schedule whose time has come. */
  predicate ReadAsDue(docs: map<string, Doc>, p: Pick, now: int) {
    && p.id in docs && docs[p.id].isActive && docs[p.id].nextAt <= now && docs[p.id].kind == p.kind
    && (docs[p.id].status == Pending || docs[p.id].status == Scheduled)
  }

  /** Event number `j` is a query, at or after the time that the document of the pick shows at that moment. */
  ghost predicate DueAt(es: seq<Event>, j: nat, p: Pick) {
    j < |es| && es[j].Query? && ReadAsDue(Run(EMPTY, es[..j]).docs, p, es[j].now)
  }

  lemma NewPick(s: System, e: Event, p: Pick)
    requires p in Next(s, e).picked && p !in s.picked
    ensures e.Query? && ReadAsDue(s.docs, p, e.now)
  {
    if e.Query? { assert p in Picks(s.docs, e.now); }
  }

  lemma {:induction false} PicksWereDue(es: seq<Event>, p: Pick) returns (j: nat)
    requires p in Run(EMPTY, es).picked
    ensures DueAt(es, j, p)
  {
    var before := es[..|es| - 1];
    if p in Run(EMPTY, before).picked {
      j := PicksWereDue(before, p);
      assert before[j] == es[j] && before[..j] == es[..j];
    } else {
      NewPick(Run(EMPTY, before), es[|es| - 1], p);
      j := |before|;
    }
  }

  /** An execution begins only after a query at or after the time that was stored when the query ran. */
  lemma NeverTooEarly(es: seq<Event>, i: nat, p: Pick) returns (j: nat)
    requires i < |es| && es[i] == Start(p) && p in Run(EMPTY, es[..i]).picked
    ensures j < i && DueAt(es, j, p)
  {
    j := PicksWereDue(es[..i], p);
    assert es[..i][j] == es[j] && es[..i][..j] == es[..j];
  }

  // ----- Cancellation is final ---------------------------------------------------------------------------------

  ghost predicate Dormant(s: System, id: string) {
    (id in s.docs ==> !s.docs[id].isActive) && id in s.used
  }

  ghost predicate NotReactivated(es: seq<Event>, id: string) {
    forall e :: e in es ==> !(e.Update? && e.id == id && e.activity == Some(true))
  }

  lemma DormantStep(s: System, e: Event, id: string)
    requires Dormant(s, id) && !(e.Update? && e.id == id && e.activity == Some(true))
    ensures Dormant(Next(s, e), id)
    ensures Outstanding(Next(s, e).picked, id) + Began(s, e, id) <= Outstanding(s.picked, id)
  {
    OutstandingStep(s, e, id);
  }

  /**
   After a cancellation, only what a query had already picked can still start, whatever is written in
   between, unless an update activates the schedule again.
  */
  lemma {:induction false} NothingNewStarts(s: System, es: seq<Event>, id: string)
    requires Dormant(s, id) && NotReactivated(es, id)
    ensures Dormant(Run(s, es), id)
    ensures Starts(s, es, id) + Outstanding(Run(s, es).picked, id) <= Outstanding(s.picked, id)
  {
    if es != [] {
      var before, e := es[..|es| - 1], es[|es| - 1];
      assert e in es;
      NothingNewStarts(s, before, id);
      DormantStep(Run(s, before), e, id);
    }
  }

  lemma {:induction false} UsedIds(es: seq<Event>)
    ensures Run(EMPTY, es).docs.Keys <= Run(EMPTY, es).used
  {
    if es != [] {
      UsedIds(es[..|es| - 1]);
      assert Run(EMPTY, es) == Next(Run(EMPTY, es[..|es| - 1]), es[|es| - 1]);
    }
  }

  lemma CancellationIsFinal(past: seq<Event>, id: string, es: seq<Event>)
    requires id in Run(EMPTY, past).docs && NotReactivated(es, id)
    ensures var s := Run(EMPTY, past);
      Starts(Next(s, Cancel(id)), es, id) <= Outstanding(s.picked, id)
  {
    UsedIds(past);
    NothingNewStarts(Next(Run(EMPTY, past), Cancel(id)), es, id);
  }

  /** So is a deletion, whatever updates follow. */
  lemma {:induction false} NothingDeletedStarts(s: System, es: seq<Event>, id: string)
    requires id !in s.docs && id in s.used
    ensures id !in Run(s, es).docs && id in Run(s, es).used
    ensures Starts(s, es, id) + Outstanding(Run(s, es).picked, id) <= Outstanding(s.picked, id)
  {
    if es != [] {
      NothingDeletedStarts(s, es[..|es| - 1], id);
      DeletedStep(Run(s, es[..|es| - 1]), es[|es| - 1], id);
    }
  }

  lemma DeletedStep(s: System, e: Event, id: string)
    requires id !in s.docs && id in s.used
    ensures id !in Next(s, e).docs && id in Next(s, e).used
    ensures Outstanding(Next(s, e).picked, id) + Began(s, e, id) <= Outstanding(s.picked, id)
  {
    OutstandingStep(s, e, id);
  }

  lemma DeletionIsFinal(past: seq<Event>, id: string, es: seq<Event>)
    requires id in Run(EMPTY, past).docs
    ensures var s := Run(EMPTY, past);
      && id !in Run(Next(s, Delete(id)), es).docs
      && Starts(Next(s, Delete(id)), es, id) <= Outstanding(s.picked, id)
  {
    UsedIds(past);
    NothingDeletedStarts(Next(Run(EMPTY, past), Delete(id)), es, id);
  }

  /** A crash forgets what was picked: without another query nothing starts. */
  lemma {:induction false} CrashForgets(s: System, es: seq<Event>, id: string)
    requires QueryFree(es)
    ensures Starts(Next(s, Crash), es, id) == 0 && Outstanding(Run(Next(s, Crash), es).picked, id) == 0
    ensures Outstanding(Next(s, Crash).running, id) == 0 && Next(s, Crash).docs == s.docs
  {
    if es != [] {
      assert es[|es| - 1] in es;
      CrashForgets(s, es[..|es| - 1], id);
      OutstandingStep(Run(Next(s, Crash), es[..|es| - 1]), es[|es| - 1], id);
    }
  }

  /** A status other than pending or scheduled is the end, once no execution is outstanding. */
  ghost predicate Over(s: System, id: string) {
    && id in s.used
    && (id in s.docs ==> !s.docs[id].status.Pending? && !s.docs[id].status.Scheduled?)
    && Outstanding(s.picked, id) == 0 && Outstanding(s.running, id) == 0
  }

  /** The document alone: once neither pending nor scheduled, it stays so unless a repeating execution ends. */
  lemma StaysSettled(s: System, e: Event, id: string)
    requires id in s.used && s.running[Pick(id, Repeating)] == 0
    requires id in s.docs ==> Settled(s.docs[id])
    ensures id in Next(s, e).docs ==> Settled(Next(s, e).docs[id])
  {
    match e
    case Start(p) => StartSettles(s, p, id);
    case Finish(p, r) => FinishSettles(s, p, r, id);
    case _ =>
  }

  predicate Settled(d: Doc) {
    !d.status.Pending? && !d.status.Scheduled?
  }

  lemma StartSettles(s: System, p: Pick, id: string)
    requires id in s.docs ==> Settled(s.docs[id])
    ensures id in Next(s, Start(p)).docs ==> Settled(Next(s, Start(p)).docs[id])
  {
  }

  lemma FinishSettles(s: System, p: Pick, r: Result, id: string)
    requires s.running[Pick(id, Repeating)] == 0 && (id in s.docs ==> Settled(s.docs[id]))
    ensures id in Next(s, Finish(p, r)).docs ==> Settled(Next(s, Finish(p, r)).docs[id])
  {
    if p in s.running && p.id == id { assert p.kind == Once; }
  }

  lemma OverStep(s: System, e: Event, id: string)
    requires Over(s, id)
    ensures Over(Next(s, e), id) && Began(s, e, id) == 0
  {
    OutstandingStep(s, e, id);
    StaysSettled(s, e, id);
  }

  /**
   A schedule that was cancelled while nothing of it was in progress, that completed, failed, or was
   left in PROCESSING by a crash, never starts again: no update, not even of `isActive`, brings it back.
  */
  lemma {:induction false} OverForever(s: System, es: seq<Event>, id: string)
    requires Over(s, id)
    ensures Over(Run(s, es), id) && Starts(s, es, id) == 0
  {
    if es != [] {
      var before, e := es[..|es| - 1], es[|es| - 1];
      OverForever(s, before, id);
      OverStep(Run(s, before), e, id);
    }
  }

  // ----- When the cancelled status lasts -------------------------------------------------------------------------

  /** Whatever happens after a cancellation, the document says CANCELLED for as long as it exists. */
  ghost predicate StaysCancelled(s: System, id: string) {
    forall es :: var t := Run(Next(s, Cancel(id)), es); id in t.docs ==> t.docs[id].status.Cancelled?
  }

  ghost predicate Undisturbed(s: System, id: string) {
    && id in s.used && (id in s.docs ==> s.docs[id].status.Cancelled?)
    && Outstanding(s.picked, id) == 0 && Outstanding(s.running, id) == 0
  }

  /** Only executions of the schedule itself write another status. */
  lemma CancelledStatusKept(s: System, e: Event, id: string)
    requires id in s.used && (id in s.docs ==> s.docs[id].status.Cancelled?)
    requires (e.Start? && e.pick in s.picked) || (e.Finish? && e.pick in s.running) ==> e.pick.id != id
    ensures id in Next(s, e).used && (id in Next(s, e).docs ==> Next(s, e).docs[id].status.Cancelled?)
  {
    match e
    case Start(p) =>
    case Finish(p, r) =>
    case _ =>
  }

  lemma UndisturbedStep(s: System, e: Event, id: string)
    requires Undisturbed(s, id)
    ensures Undisturbed(Next(s, e), id)
  {
    OutstandingStep(s, e, id);
    CancelledStatusKept(s, e, id);
  }

  lemma {:induction false} UndisturbedRun(s: System, es: seq<Event>, id: string)
    requires Undisturbed(s, id)
    ensures Undisturbed(Run(s, es), id)
  {
    if es != [] {
      UndisturbedRun(s, es[..|es| - 1], id);
      UndisturbedStep(Run(s, es[..|es| - 1]), es[|es| - 1], id);
    }
  }

  lemma OutstandingPick(m: multiset<Pick>, id: string) returns (p: Pick)
    requires Outstanding(m, id) > 0
    ensures p in m && p.id == id
  {
    p := if Pick(id, Once) in m then Pick(id, Once) else Pick(id, Repeating);
  }

  lemma OneEvent(s: System, e: Event)
    ensures Run(s, [e]) == Next(s, e)
  {
    assert [e][..0] == [];
    assert Run(s, []) == s;
  }

  /** The next write of an execution that the cancellation did not stop overwrites the status. */
  lemma CancelledStatusIsOverwritten(s: System, id: string) returns (e: Event)
    requires id in s.docs && (Outstanding(s.picked, id) > 0 || Outstanding(s.running, id) > 0)
    ensures var t := Run(Next(s, Cancel(id)), [e]);
      id in t.docs && !t.docs[id].status.Cancelled? && !t.docs[id].isActive
  {
    if Outstanding(s.picked, id) > 0 {
      var p := OutstandingPick(s.picked, id);
      e := Start(p);
    } else {
      var p := OutstandingPick(s.running, id);
      e := Finish(p, NoTargets);
    }
    OneEvent(Next(s, Cancel(id)), e);
  }

  /** A cancellation lasts exactly when no execution of the schedule is picked or running at that moment. */
  lemma CancelledExactly(s: System, id: string)
    requires id in s.docs && id in s.used
    ensures StaysCancelled(s, id) <==> Outstanding(s.picked, id) == 0 && Outstanding(s.running, id) == 0
  {
    var c := Next(s, Cancel(id));
    if Outstanding(s.picked, id) == 0 && Outstanding(s.running, id) == 0 {
      assert Undisturbed(c, id);
      forall es ensures id in Run(c, es).docs ==> Run(c, es).docs[id].status.Cancelled? {
        UndisturbedRun(c, es, id);
      }
    } else {
      var e := CancelledStatusIsOverwritten(s, id);
      assert !Run(c, [e]).docs[id].status.Cancelled?;
    }
  }

  // ----- A one-time schedule starts once -------------------------------------------------------------------------

  /** No query finds the schedule due while an earlier pick of it has not been started. */
  ghost predicate PickedAfresh(es: seq<Event>, id: string) {
    forall i :: 0 <= i < |es| ==> AfreshAt(es, i, id)
  }

  ghost predicate AfreshAt(es: seq<Event>, i: nat, id: string)
    requires i < |es|
  {
    Repicks(Run(EMPTY, es[..i]), es[i], id) ==> Outstanding(Run(EMPTY, es[..i]).picked, id) == 0
  }

  predicate Repicks(s: System, e: Event, id: string) {
    e.Query? && id in s.docs && Due(s.docs[id], e.now)
  }

  /** A tick begins only when the one before has finished. */
  ghost predicate NonOverlapping(es: seq<Event>) {
    forall i :: 0 <= i < |es| && es[i].Query? ==>
      Run(EMPTY, es[..i]).picked == multiset{} && Run(EMPTY, es[..i]).running == multiset{}
  }

  lemma NonOverlappingPicksAfresh(es: seq<Event>, id: string)
    requires NonOverlapping(es)
    ensures PickedAfresh(es, id)
  {
  }

  ghost predicate StaysOnce(es: seq<Event>, id: string) {
    forall e :: e in es ==>
      (e.Create? && e.id == id ==> e.kind == Once) && (e.Update? && e.id == id ==> e.newKind != Some(Repeating))
  }

  /** Not started and perhaps picked, or started and over but for its final write. */
  ghost predicate AtMostOnce(s: System, id: string, starts: nat) {
    && (id in s.docs ==> id in s.used && s.docs[id].kind == Once)
    && s.picked[Pick(id, Repeating)] == 0 && s.running[Pick(id, Repeating)] == 0
    && (Outstanding(s.picked, id) > 0 || Outstanding(s.running, id) > 0 || starts > 0 ==> id in s.used)
    && Outstanding(s.picked, id) + starts <= 1
    && (starts == 0 ==> Outstanding(s.running, id) == 0)
    && (starts > 0 && id in s.docs ==> !s.docs[id].status.Pending? && !s.docs[id].status.Scheduled?)
  }

  lemma NoneRepeating(s: System, e: Event, id: string)
    requires s.picked[Pick(id, Repeating)] == 0 && s.running[Pick(id, Repeating)] == 0
    requires id in s.docs ==> s.docs[id].kind == Once
    ensures Next(s, e).picked[Pick(id, Repeating)] == 0 && Next(s, e).running[Pick(id, Repeating)] == 0
  {
    if e.Query? { assert Pick(id, Repeating) !in Picks(s.docs, e.now); }
  }

  /** Only a creation and an update write the type. */
  predicate SameType(s: System, t: System, id: string) {
    t.used == s.used && (id in t.docs ==> id in s.docs && t.docs[id].kind == s.docs[id].kind)
  }

  lemma StartKeepsType(s: System, p: Pick, id: string)
    ensures SameType(s, Next(s, Start(p)), id)
  {
  }

  lemma FinishKeepsType(s: System, p: Pick, r: Result, id: string)
    ensures SameType(s, Next(s, Finish(p, r)), id)
  {
  }

  lemma StaysOneTime(s: System, e: Event, id: string)
    requires id in s.docs ==> id in s.used && s.docs[id].kind == Once
    requires (e.Create? && e.id == id ==> e.kind == Once) && (e.Update? && e.id == id ==> e.newKind != Some(Repeating))
    ensures s.used <= Next(s, e).used
    ensures id in Next(s, e).docs ==> id in Next(s, e).used && Next(s, e).docs[id].kind == Once
  {
    match e
    case Start(p) => StartKeepsType(s, p, id);
    case Finish(p, r) => FinishKeepsType(s, p, r, id);
    case _ =>
  }

  lemma OnceStep(s: System, e: Event, id: string, starts: nat)
    requires AtMostOnce(s, id, starts)
    requires Repicks(s, e, id) ==> Outstanding(s.picked, id) == 0
    requires (e.Create? && e.id == id ==> e.kind == Once) && (e.Update? && e.id == id ==> e.newKind != Some(Repeating))
    ensures AtMostOnce(Next(s, e), id, starts + Began(s, e, id))
  {
    OutstandingStep(s, e, id);
    NoneRepeating(s, e, id);
    StaysOneTime(s, e, id);
    if starts > 0 { StaysSettled(s, e, id); }
  }

  lemma {:induction false} OnceStartsOnce(es: seq<Event>, id: string)
    requires PickedAfresh(es, id) && StaysOnce(es, id)
    ensures AtMostOnce(Run(EMPTY, es), id, Starts(EMPTY, es, id))
    ensures Starts(EMPTY, es, id) <= 1
  {
    if es != [] {
      var before, e := es[..|es| - 1], es[|es| - 1];
      assert e in es && AfreshAt(es, |before|, id);
      forall i | 0 <= i < |before| ensures AfreshAt(before, i, id) {
        assert before[i] == es[i] && before[..i] == es[..i] && AfreshAt(es, i, id);
      }
      OnceStartsOnce(before, id);
      OnceStep(Run(EMPTY, before), e, id, Starts(EMPTY, before, id));
    }
  }

  /** No stretch of the run, followed by anything but queries, starts the schedule twice. */
  ghost predicate NeverTwice(es: seq<Event>, id: string) {
    forall i, more :: 0 <= i <= |es| && StaysOnce(more, id) && QueryFree(more) ==>
      Starts(EMPTY, es[..i] + more, id) <= 1
  }

  /** A one-time schedule is safe from a second start exactly if every query that picks it picks it afresh. */
  lemma OnceExactly(es: seq<Event>, id: string)
    requires StaysOnce(es, id)
    ensures NeverTwice(es, id) <==> PickedAfresh(es, id)
  {
    if PickedAfresh(es, id) {
      forall i, more | 0 <= i <= |es| && StaysOnce(more, id) && QueryFree(more)
        ensures Starts(EMPTY, es[..i] + more, id) <= 1
      {
        AfreshContinues(es, i, more, id);
        OnceStartsOnce(es[..i] + more, id);
      }
    } else {
      var i :| 0 <= i < |es| && !AfreshAt(es, i, id);
      var more := SecondStart(es, i, id);
      assert Starts(EMPTY, es[..i + 1] + more, id) > 1;
    }
  }

  lemma AfreshContinues(es: seq<Event>, i: nat, more: seq<Event>, id: string)
    requires i <= |es| && PickedAfresh(es, id) && StaysOnce(es, id)
    requires StaysOnce(more, id) && QueryFree(more)
    ensures PickedAfresh(es[..i] + more, id) && StaysOnce(es[..i] + more, id)
  {
    var run := es[..i] + more;
    forall j | 0 <= j < |run| ensures AfreshAt(run, j, id) {
      if j < i {
        assert run[j] == es[j] && run[..j] == es[..j] && AfreshAt(es, j, id);
      } else {
        assert run[j] == more[j - i] && more[j - i] in more;
      }
    }
  }

  lemma {:induction false} PicksAreOnce(es: seq<Event>, id: string)
    requires StaysOnce(es, id)
    ensures var s := Run(EMPTY, es);
      && s.picked[Pick(id, Repeating)] == 0 && s.running[Pick(id, Repeating)] == 0
      && (id in s.docs ==> id in s.used && s.docs[id].kind == Once)
  {
    if es != [] {
      var before, e := es[..|es| - 1], es[|es| - 1];
      assert e in es;
      PicksAreOnce(before, id);
      NoneRepeating(Run(EMPTY, before), e, id);
      StaysOneTime(Run(EMPTY, before), e, id);
    }
  }

  lemma SecondPick(es: seq<Event>, i: nat, id: string)
    requires StaysOnce(es, id) && i < |es| && !AfreshAt(es, i, id)
    ensures Run(EMPTY, es[..i + 1]).picked[Pick(id, Once)] >= 2
  {
    var s := Run(EMPTY, es[..i]);
    assert StaysOnce(es[..i + 1], id);
    OutstandingAdd(s.picked, s.docs, es[i].now, id);
    assert es[..i + 1][..i] == es[..i] && es[..i + 1][i] == es[i];
    PicksAreOnce(es[..i + 1], id);
  }

  /** After a query that picked the schedule a second time, both picks can be started. */
  lemma SecondStart(es: seq<Event>, i: nat, id: string) returns (more: seq<Event>)
    requires StaysOnce(es, id) && i < |es| && !AfreshAt(es, i, id)
    ensures StaysOnce(more, id) && QueryFree(more) && Starts(EMPTY, es[..i + 1] + more, id) > 1
  {
    var p := Pick(id, Once);
    SecondPick(es, i, id);
    var run := StartOne(es[..i + 1], p);
    run := StartOne(run, p);
    more := [Start(p), Start(p)];
    assert run == es[..i + 1] + more;
  }

  lemma ExtendOnce(es: seq<Event>, e: Event, id: string) returns (longer: seq<Event>)
    requires StaysOnce(es, id) && (e.Create? ==> e.kind == Once) && !e.Update?
    ensures longer == es + [e]
    ensures Run(EMPTY, longer) == Next(Run(EMPTY, es), e) && StaysOnce(longer, id)
    ensures Starts(EMPTY, longer, id) == Starts(EMPTY, es, id) + Began(Run(EMPTY, es), e, id)
  {
    longer := es + [e];
    assert longer[..|es|] == es;
  }

  lemma QueryPicks(s: System, p: Pick)
    requires p.id in s.docs && Due(s.docs[p.id], 0) && s.docs[p.id].kind == p.kind
    ensures Next(s, Query(0)).docs == s.docs && Next(s, Query(0)).picked[p] == s.picked[p] + 1
  {
    assert p in Picks(s.docs, 0);
  }

  lemma PickedTwice(id: string) returns (es: seq<Event>)
    ensures StaysOnce(es, id) && Starts(EMPTY, es, id) == 0 && Run(EMPTY, es).picked[Pick(id, Once)] == 2
  {
    es := ExtendOnce([], Create(id, Once, 0), id);
    QueryPicks(Run(EMPTY, es), Pick(id, Once));
    es := ExtendOnce(es, Query(0), id);
    QueryPicks(Run(EMPTY, es), Pick(id, Once));
    es := ExtendOnce(es, Query(0), id);
  }

  lemma StartOne(es: seq<Event>, p: Pick) returns (longer: seq<Event>)
    requires StaysOnce(es, p.id) && p in Run(EMPTY, es).picked
    ensures longer == es + [Start(p)] && StaysOnce(longer, p.id)
    ensures Starts(EMPTY, longer, p.id) == Starts(EMPTY, es, p.id) + 1
    ensures Run(EMPTY, longer).picked == Run(EMPTY, es).picked - multiset{p}
  {
    longer := ExtendOnce(es, Start(p), p.id);
  }

  /** When ticks overlap, both pick the same one-time schedule before either has marked it. */
  lemma OverlappingTicksStartTwice(id: string)
    ensures exists es :: StaysOnce(es, id) && Starts(EMPTY, es, id) == 2
  {
    var picked := PickedTwice(id);
    var first := StartOne(picked, Pick(id, Once));
    var second := StartOne(first, Pick(id, Once));
    assert Starts(EMPTY, second, id) == 2;
  }

  // ----- The counters tell the history ---------------------------------------------------------------------------

  datatype Tally = Tally(executions: nat, successes: nat, failures: nat)

  /** What one event adds: an execution begun, users reached, users or an execution failed. */
  function Recorded(s: System, e: Event, id: string, t: Tally): Tally {
    if e.Start? && e.pick.id == id && e.pick in s.picked then t.(executions := t.executions + 1)
    else if e.Finish? && e.pick.id == id && e.pick in s.running then
      match e.result
      case NoTargets => t
      case Sent(n, f, _) => t.(successes := t.successes + n, failures := t.failures + f)
      case Broken => t.(failures := t.failures + 1)
    else t
  }

  function History(es: seq<Event>, id: string): Tally {
    if es == [] then Tally(0, 0, 0)
    else Recorded(Run(EMPTY, es[..|es| - 1]), es[|es| - 1], id, History(es[..|es| - 1], id))
  }

  /** Before its creation nothing happens for an id; afterwards the counters of the document are exact. */
  ghost predicate Counted(s: System, id: string, h: Tally) {
    && (id in s.docs ==> id in s.used)
    && (id !in s.used ==> h == Tally(0, 0, 0) && Outstanding(s.picked, id) == 0 && Outstanding(s.running, id) == 0)
    && (id in s.docs ==> h == Tally(s.docs[id].executionCount, s.docs[id].successCount, s.docs[id].failureCount))
  }

  lemma CountedStart(s: System, p: Pick, id: string, h: Tally)
    requires Counted(s, id, h) && p in s.picked
    ensures Counted(Next(s, Start(p)), id, Recorded(s, Start(p), id, h))
  {
    OutstandingStart(s, p, id);
  }

  lemma CountedFinish(s: System, p: Pick, r: Result, id: string, h: Tally)
    requires Counted(s, id, h) && p in s.running
    ensures Counted(Next(s, Finish(p, r)), id, Recorded(s, Finish(p, r), id, h))
  {
    OutstandingMove(s.running, p, id);
  }

  lemma CountedOtherwise(s: System, e: Event, id: string, h: Tally)
    requires Counted(s, id, h) && !e.Start? && !e.Finish?
    ensures Counted(Next(s, e), id, h)
  {
    if e.Query? { OutstandingAdd(s.picked, s.docs, e.now, id); }
  }

  lemma CountedStep(s: System, e: Event, id: string, h: Tally)
    requires Counted(s, id, h)
    ensures Counted(Next(s, e), id, Recorded(s, e, id, h))
  {
    match e
    case Start(p) => if p in s.picked { CountedStart(s, p, id, h); }
    case Finish(p, r) => if p in s.running { CountedFinish(s, p, r, id, h); }
    case _ => CountedOtherwise(s, e, id, h);
  }

  lemma {:induction false} CountersFollowHistory(es: seq<Event>, id: string)
    ensures Counted(Run(EMPTY, es), id, History(es, id))
  {
    if es != [] {
      CountersFollowHistory(es[..|es| - 1], id);
      CountedStep(Run(EMPTY, es[..|es| - 1]), es[|es| - 1], id, History(es[..|es| - 1], id));
    }
  }

  // ----- The fields of a document tell the history ---------------------------------------------------------------

  datatype Fields = Fields(present: bool, status: Status, isActive: bool, kind: Kind, nextAt: int)

  /** What one event writes; what it leaves alone comes from before. */
  function Written(s: System, e: Event, id: string, f: Fields): Fields {
    match e
    case Create(x, kind, nextAt) =>
      if x == id && id !in s.used then Fields(true, Pending, true, kind, nextAt) else f
    case Start(p) => if p.id == id && p in s.picked then f.(status := Processing) else f
    case Finish(p, r) =>
      if p.id != id || p !in s.running then f
      else if r.Broken? then f.(status := Failed)
      else if r.Sent? && p.kind == Repeating && r.next.Some? then f.(status := Scheduled, nextAt := r.next.value)
      else f.(status := Completed)
    case Cancel(x) => if x == id then f.(status := Cancelled, isActive := false) else f
    case Update(x, newKind, activity) =>
      if x != id then f
      else Fields(f.present, f.status, if activity.None? then f.isActive else activity.value,
                  if newKind.None? then f.kind else newKind.value, f.nextAt)
    case Delete(x) => if x == id then f.(present := false) else f
    case _ => f
  }

  function FieldsAfter(es: seq<Event>, id: string): Fields {
    if es == [] then Fields(false, Pending, false, Once, 0)
    else Written(Run(EMPTY, es[..|es| - 1]), es[|es| - 1], id, FieldsAfter(es[..|es| - 1], id))
  }

  ghost predicate Shows(s: System, id: string, f: Fields) {
    && (id in s.docs <==> f.present) && (id in s.docs ==> id in s.used)
    && (id in s.docs ==>
          var d := s.docs[id];
          d.status == f.status && d.isActive == f.isActive && d.kind == f.kind && d.nextAt == f.nextAt)
  }

  lemma ShowsStart(s: System, p: Pick, id: string, f: Fields)
    requires Shows(s, id, f)
    ensures Shows(Next(s, Start(p)), id, Written(s, Start(p), id, f))
  {
  }

  lemma ShowsFinish(s: System, p: Pick, r: Result, id: string, f: Fields)
    requires Shows(s, id, f)
    ensures Shows(Next(s, Finish(p, r)), id, Written(s, Finish(p, r), id, f))
  {
  }

  lemma ShowsStep(s: System, e: Event, id: string, f: Fields)
    requires Shows(s, id, f)
    ensures Shows(Next(s, e), id, Written(s, e, id, f))
  {
    match e
    case Start(p) => ShowsStart(s, p, id, f);
    case Finish(p, r) => ShowsFinish(s, p, r, id, f);
    case _ =>
  }

  /** Each field of a document is what the newest write to it says, and the document exists until it is deleted. */
  lemma {:induction false} FieldsFollowHistory(es: seq<Event>, id: string)
    ensures Shows(Run(EMPTY, es), id, FieldsAfter(es, id))
  {
    if es != [] {
      FieldsFollowHistory(es[..|es| - 1], id);
      ShowsStep(Run(EMPTY, es[..|es| - 1]), es[|es| - 1], id, FieldsAfter(es[..|es| - 1], id));
    }
  }

  // ----- Who is notified -----------------------------------------------------------------------------------------

  datatype Audience = Audience(userIds: seq<string>, categoryIds: seq<string>, excludeUserIds: seq<string>)

  /** A category that does not exist empties the whole audience, named users included. */
  method GetTargetUsers(store: Categories.Store, a: Audience) returns (users: set<string>)
    ensures (exists i :: 0 <= i < |a.categoryIds| && a.categoryIds[i] !in store.docs) ==> users == {}
    ensures (forall i :: 0 <= i < |a.categoryIds| ==> a.categoryIds[i] in store.docs) ==>
      forall u :: u in users <==>
        u !in a.excludeUserIds
        && (u in a.userIds
            || exists i :: 0 <= i < |a.categoryIds| && u in Categories.UserIds(store.docs[a.categoryIds[i]].members))
  {
    users := set u | u in a.userIds;
    if |a.categoryIds| > 0 {
      var found := CategoryTargeting.GetUsersByMultipleCategories(store, a.categoryIds, a.excludeUserIds);
      if found.Missing? { return {}; }
      users := users + found.userIds;
    }
    var i := 0;
    ghost var all := users;
    while i < |a.excludeUserIds|
      invariant 0 <= i <= |a.excludeUserIds|
      invariant users == all - set u | u in a.excludeUserIds[..i]
    {
      assert a.excludeUserIds[..i + 1] == a.excludeUserIds[..i] + [a.excludeUserIds[i]];
      users := users - {a.excludeUserIds[i]};
      i := i + 1;
    }
    assert a.excludeUserIds[..i] == a.excludeUserIds;
  }

  // ----- The service object --------------------------------------------------------------------------------------

  datatype Outcome = Done | NotFound | BadRequest

  class SchedulingService {
    var docs: map<string, Doc>
    var picked: multiset<Pick>
    var running: multiset<Pick>
    ghost var used: set<string>

    ghost function View(): System
      reads this
    {
      System(docs, picked, running, used)
    }

    constructor ()
      ensures View() == EMPTY
    {
      docs, picked, running, used := map[], multiset{}, multiset{}, {};
    }

    method QueryDue(now: int)
      modifies this`picked
      ensures forall p :: picked[p] == old(picked)[p] + if ReadAsDue(docs, p, now) then 1 else 0
      ensures View() == Next(old(View()), Query(now))
    {
      var due := set id | id in docs && Due(docs[id], now) :: Pick(id, docs[id].kind);
      assert forall p :: p in due <==> ReadAsDue(docs, p, now);
      picked := picked + multiset(due);
    }

    method StartExecution(p: Pick)
      requires p in picked
      modifies this
      ensures picked == old(picked) - multiset{p} && running == old(running) + multiset{p}
      ensures docs.Keys == old(docs).Keys
      ensures p.id in docs ==>
        docs[p.id].status == Processing && docs[p.id].executionCount == old(docs)[p.id].executionCount + 1
      ensures View() == Next(old(View()), Start(p))
    {
      picked := picked - multiset{p};
      running := running + multiset{p};
      if p.id in docs {
        docs := docs[p.id := docs[p.id].(status := Processing, executionCount := docs[p.id].executionCount + 1)];
      }
    }

    method FinishExecution(p: Pick, r: Result)
      requires p in running
      modifies this
      ensures running == old(running) - multiset{p}
      ensures View() == Next(old(View()), Finish(p, r))
    {
      running := running - multiset{p};
      if p.id !in docs { return; }
      var d := docs[p.id];
      match r {
        case NoTargets => d := d.(status := Completed);
        case Broken => d := d.(status := Failed, failureCount := d.failureCount + 1);
        case Sent(successes, failures, next) =>
          d := d.(successCount := d.successCount + successes, failureCount := d.failureCount + failures);
          if p.kind == Repeating {
            if next.Some? {
              d := d.(nextAt := next.value, status := Scheduled);
            } else {
              d := d.(status := Completed);
            }
          } else {
            d := d.(status := Completed);
          }
      }
      docs := docs[p.id := d];
    }

    method CancelScheduledNotification(id: string) returns (found: bool)
      modifies this`docs
      ensures found == (id in docs) && (found ==> docs[id].status == Cancelled && !docs[id].isActive)
      ensures View() == Next(old(View()), Cancel(id))
    {
      if id !in docs { return false; }
      docs := docs[id := docs[id].(status := Cancelled, isActive := false)];
      return true;
    }

    /** The pattern is validated before anything is written. */
    method UpdateScheduledNotification(id: string, kind: Option<Kind>, validPattern: bool, isActive: Option<bool>)
      returns (o: Outcome)
      modifies this`docs
      ensures o == if id !in old(docs) then NotFound else if kind.Some? && !validPattern then BadRequest else Done
      ensures docs.Keys == old(docs).Keys
      ensures o.Done? ==>
        && (kind.Some? ==> docs[id].kind == kind.value) && (isActive.Some? ==> docs[id].isActive == isActive.value)
        && docs[id].status == old(docs)[id].status && docs[id].nextAt == old(docs)[id].nextAt
      ensures View() == if o.Done? then Next(old(View()), Update(id, kind, isActive)) else old(View())
    {
      if id !in docs { return NotFound; }
      if kind.Some? {
        if !validPattern { return BadRequest; }
      }
      var d := docs[id];
      if kind.Some? { d := d.(kind := kind.value); }
      if isActive.Some? { d := d.(isActive := isActive.value); }
      docs := docs[id := d];
      return Done;
    }
  }
}
