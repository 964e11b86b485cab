/** What a day's watermark promises about the local store, and why marking keeps the promise. */
module Watermark {
  import opened Basics
  import opened LogRows
  import opened LocalStore
  import opened CollectRows
  import Cst

  const SYNC_OVERLAP := 300
  const SETTLE_SECS := 300

  function LastSecond(day: int): int {
    Cst.DayStart(day + 1) - 1
  }

  /** A watermark at or past the day's last second promises every row of the day; any other
      one promises the rows more than SYNC_OVERLAP seconds before it. */
  predicate Promises(wm: int, r: LogItem) {
    wm >= LastSecond(Cst.DayOf(r.createdAt)) || r.createdAt < wm - SYNC_OVERLAP
  }

  ghost predicate Covered(rows: Table, log: set<LogItem>, day: int, wm: int) {
    forall r :: r in log && Cst.DayOf(r.createdAt) == day && Promises(wm, r) ==> Holds(rows, r)
  }

  /** The store holds only upstream rows, and every watermark keeps its promise. */
  ghost predicate Sound(rows: Table, marks: Marks, log: set<LogItem>) {
    Within(rows, log) && forall d :: d in marks ==> Covered(rows, log, d, marks[d])
  }

  /** Rows only get added. */
  ghost predicate Grows(before: Table, after: Table) {
    forall r :: Holds(before, r) ==> Holds(after, r)
  }

  // ---------------------------------------------------------------- plan

  datatype SyncDay = SyncDay(day: int, s: int, e: int, ds: int, de: int)

  /** The watermark of a day as the plan reads it: a day without one counts as 0. */
  function MarkOf(marks: Marks, day: int): int {
    if day in marks then marks[day] else 0
  }

  /** The fetch planned for the day that starts at `ds`, when its watermark is `wm`. */
  function Planned(ds: int, wm: int, end: int): SyncDay {
    var s := if wm > ds then Max(ds, wm - SYNC_OVERLAP) else ds;
    SyncDay(Cst.DayOf(ds), s, Min(Cst.DayEnd(ds), end), ds, Cst.DayEnd(ds))
  }

  /** The watermark a completely fetched day gets. */
  function Until(t: SyncDay, now: int): int {
    if t.e == t.de && now < t.de + SETTLE_SECS then t.de - SETTLE_SECS else t.e
  }

  /** The plan for `t` reads the day's current watermark. */
  ghost predicate PlannedFrom(t: SyncDay, marks: Marks, now: int) {
    && t.ds == Cst.DayStart(t.day)
    && t.de == LastSecond(t.day)
    && t.ds <= t.e <= t.de && t.e <= now
    && MarkOf(marks, t.day) < t.de
    && t.s == (if MarkOf(marks, t.day) > t.ds then Max(t.ds, MarkOf(marks, t.day) - SYNC_OVERLAP) else t.ds)
  }

  /** A row that the new watermark promises lies before the end of the planned window, and
      can no longer be late. */
  lemma PromiseIsSettled(t: SyncDay, now: int, r: LogItem)
    requires t.de == LastSecond(t.day) && t.e <= t.de && t.e <= now
    requires Cst.DayOf(r.createdAt) == t.day && Promises(Until(t, now), r)
    ensures r.createdAt <= t.e && r.createdAt + LATENESS <= now
  {
    Cst.DayBounds(r.createdAt, t.day);
  }

  /** Marking is sound: once all settled rows of the planned window are in the store, the
      new watermark promises no more than the store holds.  The overlap closes the gap
      between the old promise and the new window; the settle rule keeps a day open until
      its last rows cannot be late any more. */
  lemma MarkKeepsSound(before: Table, after: Table, marks: Marks, log: set<LogItem>, t: SyncDay, now: int)
    requires Sound(before, marks, log) && Grows(before, after) && Within(after, log)
    requires PlannedFrom(t, marks, now) && t.day >= 1
    requires forall r :: r in log && t.s <= r.createdAt <= t.e && r.createdAt + LATENESS <= now ==> Holds(after, r)
    ensures Sound(after, Raise(marks, t.day, Until(t, now)), log)
    ensures MarkOf(Raise(marks, t.day, Until(t, now)), t.day) >= Until(t, now)
  {
    var d, until := t.day, Until(t, now);
    if !(d in marks && marks[d] > until) {
      forall r | r in log && Cst.DayOf(r.createdAt) == d && Promises(until, r)
        ensures Holds(after, r)
      {
        PromiseIsSettled(t, now, r);
        if r.createdAt < t.s {
          assert t.s == MarkOf(marks, d) - SYNC_OVERLAP;
          assert d in marks;
          assert Holds(before, r);
        }
      }
    }
  }

  /** The first sync of a day without a watermark fetches it from its first second on
      exactly when the day starts after the epoch: the default watermark 0 makes day 0
      lose all but its last hours and earlier days count as complete. */
  lemma UnknownDayIsFetchedWhole(marks: Marks, day: int, end: int)
    requires day !in marks
    ensures day >= 1 <==>
      MarkOf(marks, day) < LastSecond(day) && Planned(Cst.DayStart(day), MarkOf(marks, day), end).s == Cst.DayStart(day)
  {
    Cst.DayBounds(Cst.DayStart(day), day);
  }

  /** A completed prune, cutting at a day boundary, keeps every promise. */
  lemma PruneKeepsSound(rows: Table, marks: Marks, log: set<LogItem>, day: int)
    requires Sound(rows, marks, log)
    ensures Sound(RowsFrom(rows, Cst.DayStart(day)), MarksFrom(marks, day), log)
  {
    var rows' := RowsFrom(rows, Cst.DayStart(day));
    forall d | d in MarksFrom(marks, day)
      ensures Covered(rows', log, d, marks[d])
    {
      forall r | r in log && Cst.DayOf(r.createdAt) == d && Promises(marks[d], r)
        ensures Holds(rows', r)
      {
        Cst.DayBounds(r.createdAt, d);
        assert Holds(rows, r);
      }
    }
  }

  /** The plan of a window: the fetches of its incomplete days, and how many days are complete. */
  datatype PlanResult = PlanResult(todo: seq<SyncDay>, cached: nat)

  function PlanFrom(marks: Marks, ds: int, end: int): PlanResult
    decreases end - ds
  {
    if ds > end then PlanResult([], 0)
    else
      Cst.DayEndIsLast(ds);
      var rest := PlanFrom(marks, Cst.DayEnd(ds) + 1, end);
      if MarkOf(marks, Cst.DayOf(ds)) >= Cst.DayEnd(ds) then PlanResult(rest.todo, rest.cached + 1)
      else PlanResult([Planned(ds, MarkOf(marks, Cst.DayOf(ds)), end)] + rest.todo, rest.cached)
  }

  /** The days a plan fetches, in increasing order, as their current watermarks demand. */
  ghost predicate Schedules(todo: seq<SyncDay>, marks: Marks, day: int, end: int, now: int) {
    && (forall i :: 0 <= i < |todo| ==> day <= todo[i].day <= Cst.DayOf(end) && PlannedFrom(todo[i], marks, now))
    && (forall i :: 0 <= i < |todo| ==> todo[i].e == Min(todo[i].de, end))
    && (forall i, j :: 0 <= i < j < |todo| ==> todo[i].day < todo[j].day)
  }

  lemma PlanStep(marks: Marks, day: int, end: int)
    requires Cst.DayStart(day) <= end
    ensures var ds := Cst.DayStart(day);
      var plan, rest := PlanFrom(marks, ds, end), PlanFrom(marks, Cst.DayStart(day + 1), end);
      plan == if MarkOf(marks, day) >= LastSecond(day) then PlanResult(rest.todo, rest.cached + 1)
              else PlanResult([Planned(ds, MarkOf(marks, day), end)] + rest.todo, rest.cached)
    ensures Cst.DayOf(Cst.DayStart(day)) == day && Cst.DayEnd(Cst.DayStart(day)) == LastSecond(day)
  {
    Cst.DayBounds(Cst.DayStart(day), day);
  }

  /** The fetch planned for an incomplete day is what its watermark demands. */
  lemma PlannedIs(marks: Marks, day: int, end: int, now: int)
    requires Cst.DayStart(day) <= end <= now && MarkOf(marks, day) < LastSecond(day)
    ensures var t := Planned(Cst.DayStart(day), MarkOf(marks, day), end);
      PlannedFrom(t, marks, now) && t.day == day <= Cst.DayOf(end) && t.e == Min(t.de, end)
  {
    PlanStep(marks, day, end);
    Cst.DayMonotone(Cst.DayStart(day), end);
  }

  lemma SchedulesCons(t: SyncDay, rest: seq<SyncDay>, marks: Marks, day: int, end: int, now: int)
    requires Schedules(rest, marks, day + 1, end, now)
    requires PlannedFrom(t, marks, now) && t.day == day <= Cst.DayOf(end) && t.e == Min(t.de, end)
    ensures Schedules([t] + rest, marks, day, end, now)
  {
  }

  lemma {:induction false} PlanSchedules(marks: Marks, day: int, end: int, now: int)
    requires end <= now
    ensures Schedules(PlanFrom(marks, Cst.DayStart(day), end).todo, marks, day, end, now)
    decreases end - Cst.DayStart(day)
  {
    if Cst.DayStart(day) <= end {
      PlanStep(marks, day, end);
      PlanSchedules(marks, day + 1, end, now);
      if MarkOf(marks, day) < LastSecond(day) {
        var t := Planned(Cst.DayStart(day), MarkOf(marks, day), end);
        PlannedIs(marks, day, end, now);
        SchedulesCons(t, PlanFrom(marks, Cst.DayStart(day + 1), end).todo, marks, day, end, now);
      }
    }
  }

  /** A day that is synced in part is fetched again from 300 seconds before its watermark on, any
      other one from its first second on, and to its last second or the end of the window. */
  lemma PlanStarts(marks: Marks, day: int, end: int, t: SyncDay)
    requires day >= 1 && t in PlanFrom(marks, Cst.DayStart(day), end).todo
    ensures var ds, de := Cst.DayStart(t.day), Cst.DayStart(t.day + 1) - 1;
      && t.s == (if t.day in marks && marks[t.day] > ds then Max(ds, marks[t.day] - 300) else ds)
      && t.e == Min(de, end) && t.ds == ds && t.de == de
  {
    PlanSchedules(marks, day, end, end);
    var todo := PlanFrom(marks, Cst.DayStart(day), end).todo;
    var i :| 0 <= i < |todo| && todo[i] == t;
    assert PlannedFrom(todo[i], marks, end) && todo[i].e == Min(todo[i].de, end) && todo[i].day >= day;
    Cst.DayBounds(0, 0);
  }

  /** Whether the plan fetches a day. */
  ghost predicate Fetches(todo: seq<SyncDay>, day: int) {
    exists i :: 0 <= i < |todo| && todo[i].day == day
  }

  /** The plan fetches exactly the incomplete days of the window and counts the complete
      ones, so it is empty exactly when nothing is missing. */
  lemma {:induction false} PlanIsExact(marks: Marks, day: int, end: int, d: int)
    requires day <= d <= Cst.DayOf(end)
    ensures var plan := PlanFrom(marks, Cst.DayStart(day), end);
      && (Fetches(plan.todo, d) <==> MarkOf(marks, d) < LastSecond(d))
      && |plan.todo| + plan.cached == Cst.DayOf(end) - day + 1
    decreases end - Cst.DayStart(day)
  {
    Cst.DayBounds(end, Cst.DayOf(end));
    PlanStep(marks, day, end);
    PlanSchedules(marks, day + 1, end, end);
    var plan, rest := PlanFrom(marks, Cst.DayStart(day), end), PlanFrom(marks, Cst.DayStart(day + 1), end);
    if day < Cst.DayOf(end) {
      PlanIsExact(marks, day + 1, end, if d == day then day + 1 else d);
    } else {
      assert rest == PlanResult([], 0);
    }
    assert !Fetches([], d);
    if MarkOf(marks, day) < LastSecond(day) {
      FetchesCons(Planned(Cst.DayStart(day), MarkOf(marks, day), end), rest.todo, d);
    }
    if d == day {
      assert forall i :: 0 <= i < |rest.todo| ==> rest.todo[i].day > day;
    }
  }

  lemma FetchesCons(t: SyncDay, rest: seq<SyncDay>, d: int)
    ensures Fetches([t] + rest, d) <==> t.day == d || Fetches(rest, d)
  {
    var all := [t] + rest;
    assert all[0] == t;
    assert forall i :: 0 <= i < |rest| ==> all[i + 1] == rest[i];
    assert forall i :: 0 < i < |all| ==> all[i] == rest[i - 1];
  }
}
