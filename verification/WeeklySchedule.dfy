/**
 Next-occurrence arithmetic of daily and weekly schedules, and what it means over a run of the
 scheduler.  Times are milliseconds, counted from a local midnight that begins a Sunday.
*/
module WeeklySchedule {
  import opened Wrappers

  const DAY := 24 * 60 * 60 * 1000

  function DayOf(time: int): int { time / DAY }

  function Weekday(day: int): int { day % 7 }

  /** The first of the listed weekdays that are greater than `current`, in ascending order. */
  function FirstAbove(days: seq<int>, current: int): Option<int> {
    if days == [] then None
    else
      var d, rest := days[|days| - 1], FirstAbove(days[..|days| - 1], current);
      if d > current && (rest.None? || d < rest.value) then Some(d) else rest
  }

  /** The day of the next weekly execution, computed on day `today`. */
  function NextDay(days: seq<int>, today: int): int
    requires days != []
  {
    var first := FirstAbove(days, Weekday(today));
    if first.Some? then today + (first.value - Weekday(today))
    else today + (7 - Weekday(today) + days[0])
  }

  // ----- The next listed weekday ---------------------------------------------------------------------------

  ghost predicate InRange(days: seq<int>) {
    days != [] && forall i :: 0 <= i < |days| ==> 0 <= days[i] <= 6
  }

  ghost predicate SmallestFirst(days: seq<int>) {
    days != [] && forall i :: 0 <= i < |days| ==> days[0] <= days[i]
  }

  predicate Listed(days: seq<int>, day: int) {
    Weekday(day) in days
  }

  ghost predicate Earliest(days: seq<int>, today: int, day: int) {
    today < day && Listed(days, day) && forall d :: today < d < day ==> !Listed(days, d)
  }

  lemma {:induction false} FirstAboveIsLeast(days: seq<int>, current: int)
    ensures var first := FirstAbove(days, current);
      && (first.Some? ==> first.value in days && first.value > current)
      && (forall d :: d in days && d > current ==> first.Some? && first.value <= d)
  {
    if days != [] {
      FirstAboveIsLeast(days[..|days| - 1], current);
      assert forall d :: d in days <==> d in days[..|days| - 1] || d == days[|days| - 1];
    }
  }

  /** The result is after today, at most a week ahead, and is the earliest listed day. */
  lemma NextDayIsEarliest(days: seq<int>, today: int)
    requires InRange(days) && SmallestFirst(days)
    ensures Earliest(days, today, NextDay(days, today)) && NextDay(days, today) <= today + 7
  {
    var w, next := Weekday(today), NextDay(days, today);
    FirstAboveIsLeast(days, w);
    assert days[0] in days;
    var first := FirstAbove(days, w);
    if first.Some? {
      assert Weekday(next) == first.value by { SameWeek(today, first.value); }
    } else {
      NextWeek(today, days[0]);
    }
    forall d | today < d < next ensures !Listed(days, d) {
      if d - today <= 6 - w { SameWeek(today, w + (d - today)); } else { NextWeek(today, d - today - 7 + w); }
    }
  }

  /** A daily schedule is the weekly one that lists every day, so what holds for weeks holds for it. */
  lemma DailyIsEveryDay(today: int)
    ensures InRange([0, 1, 2, 3, 4, 5, 6]) && SmallestFirst([0, 1, 2, 3, 4, 5, 6])
    ensures NextDay([0, 1, 2, 3, 4, 5, 6], today) == today + 1
  {
    var all := [0, 1, 2, 3, 4, 5, 6];
    NextDayIsEarliest(all, today);
    var w := Weekday(today + 1);
    assert 0 <= w <= 6 && all[w] == w;
    assert Listed(all, today + 1);
  }

  lemma SameWeek(today: int, weekday: int)
    requires Weekday(today) <= weekday <= 6
    ensures Weekday(today + (weekday - Weekday(today))) == weekday
  {
  }

  lemma NextWeek(today: int, weekday: int)
    requires 0 <= weekday <= 6
    ensures Weekday(today + (7 - Weekday(today) + weekday)) == weekday
  {
  }

  /**
   In any order: the least listed weekday that is still to come this week, and if none is, the weekday that is
   listed first, in the next week.
  */
  lemma NextDayExactly(days: seq<int>, today: int)
    requires InRange(days)
    ensures var w, next := Weekday(today), NextDay(days, today);
      if exists d :: d in days && d > w
      then next / 7 == today / 7 && Weekday(next) in days && Weekday(next) > w
           && forall d :: d in days && d > w ==> Weekday(next) <= d
      else next / 7 == today / 7 + 1 && Weekday(next) == days[0]
  {
    var w := Weekday(today);
    FirstAboveIsLeast(days, w);
    assert days[0] in days;
    var first := FirstAbove(days, w);
    if first.Some? { SameWeek(today, first.value); } else { NextWeek(today, days[0]); }
  }

  /** The wrap to the next week uses the first entry, so the smallest day has to be listed first. */
  lemma EarliestExactly(days: seq<int>)
    requires InRange(days)
    ensures (forall today :: Earliest(days, today, NextDay(days, today))) <==> SmallestFirst(days)
  {
    if SmallestFirst(days) {
      forall today ensures Earliest(days, today, NextDay(days, today)) {
        NextDayIsEarliest(days, today);
      }
    } else {
      var i :| 0 <= i < |days| && days[i] < days[0];
      FirstAboveIsLeast(days, 6);
      assert forall d :: d in days ==> d <= 6;
      assert NextDay(days, 6) == 7 + days[0];
      assert Listed(days, 7 + days[i]);
      assert !Earliest(days, 6, NextDay(days, 6));
    }
  }

  // ----- Runs of the scheduler ---------------------------------------------------------------------------------

  /** One run of the cron job: when it looks, and when it has finished executing what was due. */
  datatype Tick = Tick(start: int, finish: int)

  /** `log` holds the days on which the schedule was executed. */
  datatype Schedule = Schedule(nextAt: int, log: seq<int>)

  function Created(days: seq<int>, at: int): Schedule
    requires days != []
  {
    Schedule(NextDay(days, DayOf(at)) * DAY, [])
  }

  function AfterTicks(days: seq<int>, at: int, ticks: seq<Tick>): Schedule
    requires days != []
  {
    if ticks == [] then Created(days, at)
    else Ticked(days, AfterTicks(days, at, ticks[..|ticks| - 1]), ticks[|ticks| - 1])
  }

  function Ticked(days: seq<int>, s: Schedule, t: Tick): Schedule
    requires days != []
  {
    if s.nextAt <= t.start
    then Schedule(NextDay(days, DayOf(t.finish)) * DAY, s.log + [DayOf(t.start)])
    else s
  }

  /** The last moment at which the scheduler is known to have run, or the creation. */
  function LastRun(at: int, ticks: seq<Tick>): int {
    if ticks == [] then at else ticks[|ticks| - 1].finish
  }

  /** Ticks do not overlap, come at least once a day, and finish on the day on which they start. */
  ghost predicate Regular(at: int, ticks: seq<Tick>) {
    ticks != [] ==>
      var before, t := ticks[..|ticks| - 1], ticks[|ticks| - 1];
      && Regular(at, before)
      && LastRun(at, before) <= t.start <= t.finish && DayOf(t.finish) == DayOf(t.start)
      && DayOf(t.start) <= DayOf(LastRun(at, before)) + 1
  }

  lemma DayFacts(day: int, time: int)
    ensures day * DAY <= time <==> day <= DayOf(time)
    ensures DayOf(day * DAY) == day
  {
  }

  /** Executed on exactly the listed days after the creation, once each and in order; the next is due. */
  ghost predicate Exact(days: seq<int>, at: int, last: int, s: Schedule) {
    && (forall d :: d in s.log <==> DayOf(at) < d <= DayOf(last) && Listed(days, d))
    && (forall i, j :: 0 <= i < j < |s.log| ==> s.log[i] < s.log[j])
    && DayOf(at) <= DayOf(last) && s.nextAt % DAY == 0 && Earliest(days, DayOf(last), DayOf(s.nextAt))
  }

  /** A weekly schedule never skips or repeats a listed day. */
  lemma {:induction false} NeverSkipsOrRepeats(days: seq<int>, at: int, ticks: seq<Tick>)
    requires InRange(days) && SmallestFirst(days) && Regular(at, ticks)
    ensures Exact(days, at, LastRun(at, ticks), AfterTicks(days, at, ticks))
  {
    if ticks == [] {
      NextDayIsEarliest(days, DayOf(at));
      DayFacts(NextDay(days, DayOf(at)), at);
    } else {
      var before := ticks[..|ticks| - 1];
      NeverSkipsOrRepeats(days, at, before);
      OneTick(days, at, AfterTicks(days, at, before), LastRun(at, before), ticks[|ticks| - 1]);
    }
  }

  lemma OneTick(days: seq<int>, at: int, s: Schedule, last: int, t: Tick)
    requires InRange(days) && SmallestFirst(days) && Exact(days, at, last, s)
    requires last <= t.start <= t.finish && DayOf(t.finish) == DayOf(t.start) <= DayOf(last) + 1
    ensures Exact(days, at, t.finish, Ticked(days, s, t))
  {
    var due, today := DayOf(s.nextAt), DayOf(t.finish);
    DayFacts(due, t.start);
    DayFacts(DayOf(last), t.start);
    assert s.nextAt == due * DAY;
    NextDayIsEarliest(days, today);
    DayFacts(NextDay(days, today), t.finish);
    if s.nextAt <= t.start {
      assert DayOf(last) < due == today;
      LogGrows(days, at, s.log, DayOf(last), today);
    }
  }

  lemma LogGrows(days: seq<int>, at: int, log: seq<int>, last: int, today: int)
    requires last < today == last + 1 && DayOf(at) <= last && Listed(days, today)
    requires forall d :: d in log <==> DayOf(at) < d <= last && Listed(days, d)
    requires forall i, j :: 0 <= i < j < |log| ==> log[i] < log[j]
    ensures var r := log + [today];
      && (forall d :: d in r <==> DayOf(at) < d <= today && Listed(days, d))
      && (forall i, j :: 0 <= i < j < |r| ==> r[i] < r[j])
  {
    assert forall i :: 0 <= i < |log| ==> log[i] in log;
  }

  // ----- The service code ------------------------------------------------------------------------------------------

  datatype Pattern = Daily | Weekly(recurringDays: seq<int>)

  /** `filter`, `sort` and `[0]`: the least listed weekday after the current one. */
  method LeastAbove(days: seq<int>, currentDay: int) returns (least: Option<int>)
    ensures least == FirstAbove(days, currentDay)
  {
    least := None;
    var i := 0;
    while i < |days|
      invariant 0 <= i <= |days| && least == FirstAbove(days[..i], currentDay)
    {
      assert days[..i + 1][..i] == days[..i];
      if days[i] > currentDay && (least.None? || days[i] < least.value) {
        least := Some(days[i]);
      }
      i := i + 1;
    }
    assert days[..i] == days;
  }

  method CalculateRecurringNextExecution(pattern: Pattern, now: int) returns (next: Option<int>)
    ensures next.None? <==> pattern == Weekly([])
    ensures next.Some? ==> next.value % 86_400_000 == 0
    ensures pattern.Daily? ==> now < next.value <= now + 86_400_000
    ensures pattern.Daily? ==> next == Some((DayOf(now) + 1) * DAY)
    ensures pattern.Weekly? && next.Some? ==> next == Some(NextDay(pattern.recurringDays, DayOf(now)) * DAY)
  {
    var today := now / DAY;
    match pattern {
      case Daily =>
        return Some((today + 1) * DAY);
      case Weekly(days) =>
        if |days| == 0 { return None; }
        var currentDay := today % 7;
        var nextDay := LeastAbove(days, currentDay);
        if nextDay.Some? {
          return Some((today + (nextDay.value - currentDay)) * DAY);
        } else {
          return Some((today + (7 - currentDay + days[0])) * DAY);
        }
    }
  }

  /** Every computed time lies in the future, and with the smallest day first at most a week ahead. */
  lemma NextIsAhead(days: seq<int>, now: int)
    requires InRange(days)
    ensures now < NextDay(days, DayOf(now)) * DAY
    ensures SmallestFirst(days) ==> NextDay(days, DayOf(now)) * DAY <= now + 7 * DAY
  {
    var today := DayOf(now);
    FirstAboveIsLeast(days, Weekday(today));
    DayFacts(NextDay(days, today), now);
    DayFacts(today, now);
    if SmallestFirst(days) { NextDayIsEarliest(days, today); }
  }
}
