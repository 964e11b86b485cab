/** The incremental day-by-day sync (backend/internal/detail/sync.go: plan, Sync). */
module DaySync {
  import opened Basics
  import opened LogRows
  import opened SegmentFetch
  import opened SegmentLaws
  import opened LocalStore
  import opened Segments
  import opened CollectRows
  import opened CollectLoop
  import opened Watermark
  import opened DayFetch
  import Cst
  import L = SyncLedger

  /** What is planned so far and what is left to plan make the whole plan. */
  ghost predicate PlansTo(todo: seq<SyncDay>, cached: nat, rest: PlanResult, all: PlanResult) {
    todo + rest.todo == all.todo && cached + rest.cached == all.cached
  }

  /** The fetch of one incomplete day. */
  method PlanDay(ds: int, wm: int, end: int) returns (t: SyncDay)
    ensures t == Planned(ds, wm, end)
  {
    var s := ds;
    if wm > ds {
      s := Max(ds, wm - SYNC_OVERLAP);
    }
    return SyncDay(Cst.DayOf(ds), s, Min(Cst.DayEnd(ds), end), ds, Cst.DayEnd(ds));
  }

  lemma PlanUnfolds(marks: Marks, ds: int, end: int)
    requires ds <= end
    ensures ds <= Cst.DayEnd(ds)
    ensures var wm, rest := MarkOf(marks, Cst.DayOf(ds)), PlanFrom(marks, Cst.DayEnd(ds) + 1, end);
      PlanFrom(marks, ds, end) == if wm >= Cst.DayEnd(ds) then PlanResult(rest.todo, rest.cached + 1)
                                  else PlanResult([Planned(ds, wm, end)] + rest.todo, rest.cached)
  {
    Cst.DayEndIsLast(ds);
  }

  /** One day either counts as complete or joins the plan. */
  lemma PlanAdvances(todo: seq<SyncDay>, cached: nat, marks: Marks, ds: int, end: int, all: PlanResult)
    requires ds <= end && PlansTo(todo, cached, PlanFrom(marks, ds, end), all)
    ensures ds <= Cst.DayEnd(ds)
    ensures var wm, rest := MarkOf(marks, Cst.DayOf(ds)), PlanFrom(marks, Cst.DayEnd(ds) + 1, end);
      if wm >= Cst.DayEnd(ds) then PlansTo(todo, cached + 1, rest, all)
      else PlansTo(todo + [Planned(ds, wm, end)], cached, rest, all)
  {
    PlanUnfolds(marks, ds, end);
  }

  /** The days read from the table tell the watermark of every day of the window. */
  lemma MarkRead(state: Marks, marks: Marks, start: int, end: int, ds: int)
    requires forall d :: d in state <==> d in marks && Cst.DayOf(start) <= d <= Cst.DayOf(end)
    requires forall d :: d in state ==> state[d] == marks[d]
    requires start <= ds <= end
    ensures (if Cst.DayOf(ds) in state then state[Cst.DayOf(ds)] else 0) == MarkOf(marks, Cst.DayOf(ds))
  {
    Cst.DayMonotone(start, ds);
    Cst.DayMonotone(ds, end);
  }

  method Plan(store: Local, start: int, end: int, now: int, readOk: bool)
      returns (todo: seq<SyncDay>, cached: nat, ok: bool)
    ensures var e := Min(end, now);
      if e < start then todo == [] && cached == 0 && ok
      else ok == readOk && PlanResult(todo, cached) == if ok then PlanFrom(store.marks, start, e) else PlanResult([], 0)
  {
    var e := end;
    if e > now {
      e := now;
    }
    if e < start {
      return [], 0, true;
    }
    if !readOk {
      return [], 0, false;
    }
    var state := store.DayState(Cst.DayOf(start), Cst.DayOf(e));
    todo, cached := [], 0;
    var ds := start;
    ghost var marks, all := store.marks, PlanFrom(store.marks, start, e);
    while ds <= e
      invariant start <= ds && PlansTo(todo, cached, PlanFrom(marks, ds, e), all)
      decreases e - ds
    {
      PlanAdvances(todo, cached, marks, ds, e, all);
      MarkRead(state, marks, start, e, ds);
      var de, day := Cst.DayEnd(ds), Cst.DayOf(ds);
      var wm := if day in state then state[day] else 0;
      if wm >= de {
        cached := cached + 1;
      } else {
        var t := PlanDay(ds, wm, e);
        todo := todo + [t];
      }
      ds := de + 1;
    }
    return todo, cached, true;
  }

  // ---------------------------------------------------------------- one day

  datatype DayOutcome = Marked | Incomplete | CollectFailed(failure: Failure) | MarkFailed

  /** The planned window has no more rows than one fetch may bring. */
  ghost predicate Fits(log: set<LogItem>, t: SyncDay) {
    |Matching(log, t.s, t.e, "")| <= MAX_TOTAL_ROWS
  }

  /** Fetches the whole-site rows of the planned window into the store. */
  method FetchRows(store: Local, t: SyncDay, prog: Progress, conc: int, env: Env,
                   ghost snap: nat -> set<LogItem>, ghost log: set<LogItem>, ghost now: int)
      returns (failure: Option<Failure>, ghost items: seq<LogItem>)
    modifies prog, store`rows
    ensures prog.short >= old(prog.short) && (Keyed(old(store.rows)) ==> Keyed(store.rows))
    ensures store.rows == UpsertAll(old(store.rows), items)
    ensures Observes(env, snap, log, now) ==>
      && (forall r :: r in items ==> r in log)
      && (failure.None? && prog.short == old(prog.short) ==> AllSettled(items, log, t, now))
      && (failure == Some(RowLimit) ==> !Fits(log, t))
    ensures failure.Some? ==> DayStops(t, conc, env, failure.value)
    ensures Faithful(env, log) ==>
      && (failure.None? <==> Fits(log, t))
      && (failure.None? ==> prog.short == old(prog.short))
    ensures Prompt(env, log) ==> prog.calls <= old(prog.calls) + DayCost(log, t)
  {
    ghost var run;
    failure, run := CollectDay(store, t, prog, conc, env);
    items := run.Items();
    if Keyed(old(store.rows)) {
      UpsertKeyed(old(store.rows), items);
    }
    if Observes(env, snap, log, now) {
      RunBrings(t, conc, env, run, snap, log, now);
    }
    if failure.Some? {
      RunStops(t, conc, env, run);
    }
    if Faithful(env, log) {
      RunIsFaithful(t, conc, env, run, log);
    }
    if Prompt(env, log) {
      RunIsThrifty(t, conc, env, run, log);
    }
  }

  /** The run of the fetch loop over the planned window. */
  method CollectDay(store: Local, t: SyncDay, prog: Progress, conc: int, env: Env)
      returns (failure: Option<Failure>, ghost run: DayRun)
    modifies prog, store`rows
    ensures Ran(t, conc, env, run) && failure == run.failure
    ensures store.rows == UpsertAll(old(store.rows), run.Items())
    ensures CountersShow(prog, old(prog.short), old(prog.calls), OutcomesOf(env, WINDOW_CAP), run.c.Made())
  {
    var p := Params(t.s, t.e, [], 0, conc, 0);
    ghost var oc := OutcomesOf(env, p.Cap());
    assert Runs(oc, env, p.Cap()) && p == DayParams(t, conc);
    ghost var out, rest, partial, c;
    failure, out, rest, partial, c := Collect(env, p, prog, store, oc);
    run := DayRun(failure, out, rest, partial, c);
  }

  /** This watermark, or the present one of the day when that is higher. */
  function AtLeast(marks: Marks, day: int, until: int): int {
    if day in marks then Max(marks[day], until) else until
  }

  /** The mark that a completely fetched day gets. */
  lemma MarkedUpTo(marks: Marks, t: SyncDay, now: int)
    ensures var until := if t.e == t.de && now < t.de + 300 then t.de - 300 else t.e;
      var after := Raise(marks, t.day, Until(t, now));
      t.day in after && after[t.day] == AtLeast(marks, t.day, until)
  {
  }

  /** Fetches one planned day and, unless a segment came up short, raises its watermark. */
  method FetchDay(store: Local, t: SyncDay, now: int, prog: Progress, conc: int, env: Env, markOk: bool,
                  ghost snap: nat -> set<LogItem>, ghost log: set<LogItem>)
      returns (outcome: DayOutcome, ghost items: seq<LogItem>)
    modifies prog, store
    ensures store.rows == UpsertAll(old(store.rows), items)
    ensures store.marks == if outcome == Marked then Raise(old(store.marks), t.day, Until(t, now)) else old(store.marks)
    // A marked day is marked up to where it was fetched, or 300 seconds before its end when it
    // was fetched to its end less than 300 seconds after it; a mark never goes back.
    ensures outcome == Marked ==>
      var until := if t.e == t.de && now < t.de + 300 then t.de - 300 else t.e;
      t.day in store.marks && store.marks[t.day] == AtLeast(old(store.marks), t.day, until)
    ensures Observes(env, snap, log, now) ==>
      && (forall r :: r in items ==> r in log)
      && (outcome == Marked ==> AllSettled(items, log, t, now))
      && (outcome == CollectFailed(RowLimit) ==> !Fits(log, t))
    ensures outcome.Marked? || outcome.MarkFailed? ==> prog.short == old(prog.short)
    ensures outcome.Incomplete? ==> prog.short > old(prog.short)
    ensures outcome.CollectFailed? ==> DayStops(t, conc, env, outcome.failure)
    ensures outcome.Marked? ==> markOk
    ensures outcome.MarkFailed? ==> !markOk
    ensures prog.short >= old(prog.short)
    ensures Faithful(env, log) ==> !outcome.Incomplete? && (outcome.CollectFailed? <==> !Fits(log, t))
    ensures Prompt(env, log) ==> prog.calls <= old(prog.calls) + DayCost(log, t)
    ensures Keyed(old(store.rows)) ==> Keyed(store.rows)
    ensures Observes(env, snap, log, now) && Sound(old(store.rows), old(store.marks), log)
            && PlannedFrom(t, old(store.marks), now) && t.day >= 1
      ==> Sound(store.rows, store.marks, log)
  {
    var before := prog.short;
    var failure;
    failure, items := FetchRows(store, t, prog, conc, env, snap, log, now);
    outcome := Incomplete;
    MarkedUpTo(store.marks, t, now);
    if failure.Some? {
      outcome := CollectFailed(failure.value);
    } else if prog.short > before {
      prog.Warn();
    } else {
      var until := t.e;
      if t.e == t.de && now < t.de + SETTLE_SECS {
        until := t.de - SETTLE_SECS;
      }
      var ok := store.MarkDay(t.day, until, markOk);
      outcome := if ok then Marked else MarkFailed;
    }
    if Observes(env, snap, log, now) && Sound(old(store.rows), old(store.marks), log)
       && PlannedFrom(t, old(store.marks), now) && t.day >= 1 {
      DayKeepsSound(old(store.rows), old(store.marks), items, log, t, now, outcome == Marked);
    }
  }

  /** A day that is marked has brought all its settled rows, and so the store stays sound. */
  lemma DayKeepsSound(rows: Table, marks: Marks, items: seq<LogItem>, log: set<LogItem>, t: SyncDay, now: int,
                      marked: bool)
    requires UniqueIds(log) && NonZeroIds(log) && Sound(rows, marks, log) && forall r :: r in items ==> r in log
    requires marked ==> AllSettled(items, log, t, now) && PlannedFrom(t, marks, now) && t.day >= 1
    ensures Sound(UpsertAll(rows, items), if marked then Raise(marks, t.day, Until(t, now)) else marks, log)
  {
    UpsertFromLog(rows, items, log);
    if marked {
      MarkKeepsSound(rows, UpsertAll(rows, items), marks, log, t, now);
    }
  }

  // ---------------------------------------------------------------- the whole sync

  datatype SyncFault = ReadFailed | Interrupted | DayFailed(day: int, failure: Failure) | NotMarked

  datatype SyncResult = SyncResult(daysTotal: nat, daysDone: nat, daysCached: nat, incomplete: seq<int>)

  /** What the outside world does during one sync: whether the watermarks can be read, what
      the fetch of each planned day meets, whether the context is done before it, and whether
      its watermark can be written. */
  datatype SyncEnv = SyncEnv(readOk: bool, days: nat -> Env, stop: nat -> bool, markOk: nat -> bool)

  /** The upstream of every day's fetch only shows rows of `log`, and all of them that were
      written more than LATENESS seconds before the sync read the clock. */
  ghost predicate Truthful(days: nat -> Env, snaps: nat -> nat -> set<LogItem>, log: set<LogItem>, now: int) {
    forall i: nat {:trigger days(i)} :: Observes(days(i), snaps(i), log, now)
  }

  /** Nothing fails and nothing is cancelled. */
  ghost predicate Faultless(env: SyncEnv, log: set<LogItem>) {
    && env.readOk
    && (forall i: nat {:trigger env.days(i)} :: Faithful(env.days(i), log))
    && (forall i: nat :: !env.stop(i))
    && (forall i: nat :: env.markOk(i))
  }

  /** Every upstream call of the sync is answered at once. */
  ghost predicate AllPrompt(env: SyncEnv, log: set<LogItem>) {
    forall i: nat {:trigger env.days(i)} :: Prompt(env.days(i), log)
  }

  /** What a fault of the sync goes back to, where it met it: `done` days are behind it. */
  ghost predicate Blames(fault: SyncFault, env: SyncEnv, conc: int, todo: seq<SyncDay>, done: nat) {
    match fault
    case ReadFailed => !env.readOk
    case Interrupted => done < |todo| && env.stop(done)
    case NotMarked => done < |todo| && !env.stop(done) && !env.markOk(done)
    case DayFailed(day, f) =>
      done < |todo| && !env.stop(done) && todo[done].day == day && DayStops(todo[done], conc, env.days(done), f)
  }

  /** What the fetches of the first `n` days may cost in upstream calls. */
  ghost function SyncCost(log: set<LogItem>, todo: seq<SyncDay>, n: nat): nat
    requires n <= |todo|
  {
    if n == 0 then 0 else SyncCost(log, todo, n - 1) + DayCost(log, todo[n - 1])
  }

  lemma {:induction false} CostGrows(log: set<LogItem>, todo: seq<SyncDay>, m: nat, n: nat)
    requires m <= n <= |todo|
    ensures SyncCost(log, todo, m) <= SyncCost(log, todo, n)
    decreases n - m
  {
    if m < n {
      CostGrows(log, todo, m, n - 1);
    }
  }

  /** A day's fetch has met the row limit. */
  predicate AtLimit(fault: Option<SyncFault>) {
    fault.Some? && fault.value.DayFailed? && fault.value.failure == RowLimit
  }

  /** The first `n` planned days are marked up to where they were fetched, or reported. */
  ghost predicate Finished(todo: seq<SyncDay>, n: nat, marks: Marks, incomplete: seq<int>, now: int)
    requires n <= |todo|
  {
    forall i :: 0 <= i < n ==>
      todo[i].day in incomplete || (todo[i].day in marks && marks[todo[i].day] >= Until(todo[i], now))
  }

  ghost predicate MarksGrow(before: Marks, after: Marks) {
    forall d :: d in before ==> d in after && after[d] >= before[d]
  }

  lemma MarkAdvances(todo: seq<SyncDay>, n: nat, before: Marks, incomplete: seq<int>, now: int)
    requires n < |todo| && Finished(todo, n, before, incomplete, now)
    ensures var after := Raise(before, todo[n].day, Until(todo[n], now));
      MarksGrow(before, after) && Finished(todo, n + 1, after, incomplete, now)
  {
  }

  // ---------------------------------------------------------------- the history behind it

  /** The store is where this history, free of deletions, leads from the ledger `l0`; the days
      from position `n` on are still to do. */
  ghost predicate Replays(log: set<LogItem>, l0: L.Ledger, evs: seq<L.Event>, rows: Table, marks: Marks,
                          todo: seq<SyncDay>, n: nat, now: int)
    requires n <= |todo|
  {
    && L.Legal(log, l0, evs) && L.NoDeletion(evs)
    && L.Run(l0, evs) == L.Ledger(rows, marks, now, todo[n..], {}, None)
  }

  /** One more day, whatever came of it. */
  lemma DayReplays(log: set<LogItem>, l0: L.Ledger, evs: seq<L.Event>, rows: Table, marks: Marks,
                   todo: seq<SyncDay>, n: nat, now: int, items: seq<LogItem>, marked: bool)
      returns (evs': seq<L.Event>)
    requires n < |todo| && Replays(log, l0, evs, rows, marks, todo, n, now)
    requires (forall r :: r in items ==> r in log) && (marked ==> AllSettled(items, log, todo[n], now))
    ensures Replays(log, l0, evs', UpsertAll(rows, items),
                    if marked then Raise(marks, todo[n].day, Until(todo[n], now)) else marks, todo, n + 1, now)
  {
    var store, last := L.Store(items), if marked then L.Mark else L.Skip;
    var l := L.Run(l0, evs);
    L.RunTwo(log, l, store, last);
    L.RunConcat(log, l0, evs, [store, last]);
    evs' := evs + [store, last];
  }

  /** A history free of deletions that leads from one store to another. */
  ghost predicate LeadsTo(log: set<LogItem>, now: int, evs: seq<L.Event>, rows: Table, marks: Marks,
                          rows': Table, marks': Marks) {
    LedTo(log, L.Ledger(rows, marks, now, [], {}, None), evs, rows', marks')
  }

  /** A history free of deletions that leads to this store. */
  ghost predicate LedTo(log: set<LogItem>, l0: L.Ledger, evs: seq<L.Event>, rows: Table, marks: Marks) {
    && L.Legal(log, l0, evs) && L.NoDeletion(evs)
    && L.Run(l0, evs).rows == rows && L.Run(l0, evs).marks == marks
  }

  /** Planning the days of a window is the first step of such a history. */
  lemma PlanReplays(log: set<LogItem>, rows: Table, marks: Marks, start: int, end: int, now: int)
      returns (evs: seq<L.Event>)
    requires start == Cst.DayStart(Cst.DayOf(start)) && Cst.DayOf(start) >= 1
    ensures Replays(log, L.Ledger(rows, marks, now, [], {}, None), evs, rows, marks,
                    PlanFrom(marks, start, Min(end, now)).todo, 0, now)
  {
    var l0, ev := L.Ledger(rows, marks, now, [], {}, None), L.Begin(Cst.DayOf(start), end, now);
    evs := [ev];
    assert [ev] + [] == evs;
    L.RunCons(log, l0, ev, []);
    var todo := PlanFrom(marks, start, Min(end, now)).todo;
    assert todo[0..] == todo;
  }

  /** A fetch that failed half-way stored rows of its day and nothing else. */
  lemma FaultReplays(log: set<LogItem>, l0: L.Ledger, evs: seq<L.Event>, rows: Table, marks: Marks,
                     todo: seq<SyncDay>, n: nat, now: int, items: seq<LogItem>)
      returns (evs': seq<L.Event>)
    requires n < |todo| && Replays(log, l0, evs, rows, marks, todo, n, now)
    requires forall r :: r in items ==> r in log
    ensures LedTo(log, l0, evs', UpsertAll(rows, items), marks)
  {
    var store := L.Store(items);
    assert [store] + [] == [store];
    L.RunCons(log, L.Run(l0, evs), store, []);
    L.RunConcat(log, l0, evs, [store]);
    evs' := evs + [store];
  }

  /** Such a history keeps a sound store sound. */
  lemma LedSound(log: set<LogItem>, now: int, evs: seq<L.Event>, rows: Table, marks: Marks, rows': Table, marks': Marks)
    requires UniqueIds(log) && NonZeroIds(log)
    requires Sound(rows, marks, log) && LeadsTo(log, now, evs, rows, marks, rows', marks')
    ensures Sound(rows', marks', log)
  {
    var l0 := L.Ledger(rows, marks, now, [], {}, None);
    L.IdleIsSafe(log, l0);
    L.NoDeletionIsQuiet(l0, evs);
    L.QuietIsHarmless(log, l0, evs);
    L.HistoryIsSound(log, l0, evs);
  }

  /** One planned day, with what it adds to the history. */
  method DayStep(store: Local, days: seq<SyncDay>, n: nat, now: int, prog: Progress, conc: int, env: SyncEnv,
                 ghost snaps: nat -> nat -> set<LogItem>, ghost log: set<LogItem>,
                 ghost traced: bool, ghost l0: L.Ledger, ghost evs: seq<L.Event>)
      returns (outcome: DayOutcome, ghost evs': seq<L.Event>)
    requires n < |days|
    requires traced ==>
      Truthful(env.days, snaps, log, now) && Replays(log, l0, evs, store.rows, store.marks, days, n, now)
    modifies prog, store
    ensures traced ==>
      if outcome.CollectFailed? || outcome.MarkFailed?
      then LedTo(log, l0, evs', store.rows, store.marks)
      else Replays(log, l0, evs', store.rows, store.marks, days, n + 1, now)
    ensures store.marks ==
      if outcome.Marked? then Raise(old(store.marks), days[n].day, Until(days[n], now)) else old(store.marks)
    ensures Keyed(old(store.rows)) ==> Keyed(store.rows)
    ensures outcome.CollectFailed? ==> DayStops(days[n], conc, env.days(n), outcome.failure)
    ensures outcome.MarkFailed? ==> !env.markOk(n)
    ensures outcome == CollectFailed(RowLimit) && Truthful(env.days, snaps, log, now) ==> !Fits(log, days[n])
    ensures Faultless(env, log) ==>
      (outcome.Marked? || outcome.CollectFailed?) && (outcome.CollectFailed? <==> !Fits(log, days[n]))
    ensures AllPrompt(env, log) ==> prog.calls <= old(prog.calls) + DayCost(log, days[n])
    ensures prog.short >= old(prog.short) + if outcome.Incomplete? then 1 else 0
  {
    ghost var rows, marks := store.rows, store.marks;
    ghost var items;
    outcome, items := FetchDay(store, days[n], now, prog, conc, env.days(n), env.markOk(n), snaps(n), log);
    evs' := evs;
    assert AllPrompt(env, log) ==> Prompt(env.days(n), log);
    if Truthful(env.days, snaps, log, now) {
      assert Observes(env.days(n), snaps(n), log, now);
    }
    if traced {
      if outcome.CollectFailed? || outcome.MarkFailed? {
        evs' := FaultReplays(log, l0, evs, rows, marks, days, n, now, items);
      } else {
        evs' := DayReplays(log, l0, evs, rows, marks, days, n, now, items, outcome.Marked?);
      }
    }
  }

  /** The fault, if there is one, was met at day number `n`. */
  ghost predicate Met(env: SyncEnv, conc: int, log: set<LogItem>, truthful: bool, days: seq<SyncDay>, n: nat,
                      fault: Option<SyncFault>) {
    fault.Some? ==>
      && n < |days| && !fault.value.ReadFailed? && Blames(fault.value, env, conc, days, n)
      && (truthful && AtLimit(fault) ==> !Fits(log, days[n]))
  }

  /** How the days went: all done or a fault met, and without faults from outside only a day
      over the limit can end it. */
  ghost predicate Reported(env: SyncEnv, conc: int, log: set<LogItem>, truthful: bool, days: seq<SyncDay>, done: nat,
                           incomplete: seq<int>, fault: Option<SyncFault>) {
    && (fault.None? ==> done == |days|)
    && Met(env, conc, log, truthful, days, done, fault)
    && (Faultless(env, log) ==>
          incomplete == [] && (fault.None? <==> forall i :: 0 <= i < |days| ==> Fits(log, days[i])))
  }

  /** The report so far, when no fault came from outside. */
  ghost predicate Calm(env: SyncEnv, log: set<LogItem>, days: seq<SyncDay>, n: nat, incomplete: seq<int>)
    requires n <= |days|
  {
    Faultless(env, log) ==> incomplete == [] && forall i :: 0 <= i < n ==> Fits(log, days[i])
  }

  /** One more day either extends the report or ends it. */
  lemma DayReports(env: SyncEnv, conc: int, log: set<LogItem>, truthful: bool, days: seq<SyncDay>, n: nat,
                   incomplete: seq<int>, incomplete': seq<int>, fault: Option<SyncFault>)
    requires n < |days| && Calm(env, log, days, n, incomplete) && Met(env, conc, log, truthful, days, n, fault)
    requires Faultless(env, log) ==> incomplete' == incomplete && (fault.None? <==> Fits(log, days[n]))
    ensures fault.None? ==> Calm(env, log, days, n + 1, incomplete')
    ensures fault.Some? ==> Reported(env, conc, log, truthful, days, n, incomplete', fault)
  {
  }

  /** Every day reported as incomplete is one of the first `n` planned, and its fetch came up short. */
  ghost predicate ReportsShort(days: seq<SyncDay>, n: nat, incomplete: seq<int>, shorts: int)
    requires n <= |days|
  {
    |incomplete| <= shorts && forall d :: d in incomplete ==> exists i :: 0 <= i < n && days[i].day == d
  }

  lemma ReportsOneMore(days: seq<SyncDay>, n: nat, incomplete: seq<int>, shorts: int, short: bool)
    requires n < |days| && ReportsShort(days, n, incomplete, shorts)
    ensures ReportsShort(days, n + 1, if short then incomplete + [days[n].day] else incomplete,
                         shorts + if short then 1 else 0)
  {
    forall d | d in incomplete + [days[n].day] ensures exists i :: 0 <= i < n + 1 && days[i].day == d {
      assert d == days[n].day || d in incomplete;
    }
  }

  /** What a run over the planned days starts from. */
  datatype Start = Start(env: SyncEnv, conc: int, days: seq<SyncDay>, now: int, log: set<LogItem>, truthful: bool,
                         traced: bool, l0: L.Ledger, marks: Marks, keyed: bool, calls: nat,
                         short: nat)

  /** What never changes on the way: marks only grow, every id is its row's, done days are marked
      or reported, and the first `reach` days pay for all calls. */
  ghost predicate Kept(rows: Table, marks: Marks, short: nat, calls: nat, b: Start, n: nat, incomplete: seq<int>,
                       reach: nat) {
    && n <= reach <= |b.days| && MarksGrow(b.marks, marks) && (b.keyed ==> Keyed(rows))
    && Finished(b.days, n, marks, incomplete, b.now)
    && ReportsShort(b.days, n, incomplete, short - b.short)
    && (forall i :: 0 <= i < n ==> !b.env.stop(i))
    && (AllPrompt(b.env, b.log) ==> calls - b.calls <= SyncCost(b.log, b.days, reach))
  }

  /** What a day does to all that: when it is done, and when it ends the sync. */
  lemma DayKept(rows: Table, marks: Marks, short: nat, calls: nat,
                rows': Table, marks': Marks, short': nat, calls': nat,
                b: Start, n: nat, incomplete: seq<int>, outcome: DayOutcome)
    requires n < |b.days| && Kept(rows, marks, short, calls, b, n, incomplete, n) && !b.env.stop(n)
    requires Keyed(rows) ==> Keyed(rows')
    requires marks' == if outcome.Marked? then Raise(marks, b.days[n].day, Until(b.days[n], b.now)) else marks
    requires short' >= short + if outcome.Incomplete? then 1 else 0
    requires AllPrompt(b.env, b.log) ==> calls' <= calls + DayCost(b.log, b.days[n])
    ensures outcome.Marked? ==> Kept(rows', marks', short', calls', b, n + 1, incomplete, n + 1)
    ensures outcome.Incomplete? ==>
      Kept(rows', marks', short', calls', b, n + 1, incomplete + [b.days[n].day], n + 1)
    ensures outcome.CollectFailed? || outcome.MarkFailed? ==>
      Kept(rows', marks', short', calls', b, n, incomplete, |b.days|)
  {
    CostGrows(b.log, b.days, n + 1, |b.days|);
    ReportsOneMore(b.days, n, incomplete, short - b.short, outcome.Incomplete?);
    if outcome.Marked? {
      MarkAdvances(b.days, n, marks, incomplete, b.now);
    }
  }

  /** `n` days are done. */
  ghost predicate Underway(store: Local, prog: Progress, b: Start, n: nat, incomplete: seq<int>, evs: seq<L.Event>)
    reads store, prog
  {
    && Kept(store.rows, store.marks, prog.short, prog.calls, b, n, incomplete, n)
    && (b.traced ==> b.truthful && Replays(b.log, b.l0, evs, store.rows, store.marks, b.days, n, b.now))
    && Calm(b.env, b.log, b.days, n, incomplete)
  }

  /** All days are done, or a fault was met after `n` of them. */
  ghost predicate Over(store: Local, prog: Progress, b: Start, n: nat, incomplete: seq<int>, evs: seq<L.Event>,
                       fault: Option<SyncFault>)
    reads store, prog
  {
    && Kept(store.rows, store.marks, prog.short, prog.calls, b, n, incomplete, |b.days|)
    && (b.traced ==> LedTo(b.log, b.l0, evs, store.rows, store.marks))
    && Reported(b.env, b.conc, b.log, b.truthful, b.days, n, incomplete, fault)
  }

  lemma ReplaysLead(log: set<LogItem>, l0: L.Ledger, evs: seq<L.Event>, rows: Table, marks: Marks,
                    todo: seq<SyncDay>, n: nat, now: int)
    requires n <= |todo| && Replays(log, l0, evs, rows, marks, todo, n, now)
    ensures LedTo(log, l0, evs, rows, marks)
  {
  }

  /** A sync ends where the context is done, or when no day is left. */
  lemma EndsHere(store: Local, prog: Progress, b: Start, n: nat, incomplete: seq<int>, evs: seq<L.Event>)
    requires Underway(store, prog, b, n, incomplete, evs)
    ensures n < |b.days| && b.env.stop(n) ==> Over(store, prog, b, n, incomplete, evs, Some(Interrupted))
    ensures n == |b.days| ==> Over(store, prog, b, n, incomplete, evs, None)
  {
    CostGrows(b.log, b.days, n, |b.days|);
    if b.traced {
      ReplaysLead(b.log, b.l0, evs, store.rows, store.marks, b.days, n, b.now);
    }
  }

  /** One planned day, and what it makes of the report. */
  method DayTurn(store: Local, days: seq<SyncDay>, n: nat, incomplete: seq<int>, now: int, prog: Progress, conc: int,
                 env: SyncEnv, ghost snaps: nat -> nat -> set<LogItem>, ghost log: set<LogItem>,
                 ghost b: Start, ghost evs: seq<L.Event>)
      returns (fault: Option<SyncFault>, incomplete': seq<int>, ghost evs': seq<L.Event>)
    requires b.env == env && b.conc == conc && b.days == days && b.now == now && b.log == log
    requires b.truthful == Truthful(env.days, snaps, log, now)
    requires n < |days| && Underway(store, prog, b, n, incomplete, evs) && !env.stop(n)
    modifies prog, store
    ensures fault.None? ==> Underway(store, prog, b, n + 1, incomplete', evs')
    ensures fault.Some? ==> Over(store, prog, b, n, incomplete', evs', fault)
  {
    var outcome;
    outcome, evs' := DayStep(store, days, n, now, prog, conc, env, snaps, log, b.traced, b.l0, evs);
    fault, incomplete' := None, incomplete;
    DayKept(old(store.rows), old(store.marks), old(prog.short), old(prog.calls),
            store.rows, store.marks, prog.short, prog.calls, b, n, incomplete, outcome);
    match outcome {
      case CollectFailed(f) =>
        fault := Some(DayFailed(days[n].day, f));
      case MarkFailed =>
        fault := Some(NotMarked);
      case Incomplete =>
        incomplete' := incomplete + [days[n].day];
      case Marked =>
    }
    DayReports(env, conc, log, b.truthful, days, n, incomplete, incomplete', fault);
  }

  /** The next planned day, unless the context is done. */
  method NextDay(store: Local, days: seq<SyncDay>, n: nat, incomplete: seq<int>, now: int, prog: Progress, conc: int,
                 env: SyncEnv, ghost snaps: nat -> nat -> set<LogItem>, ghost log: set<LogItem>,
                 ghost b: Start, ghost evs: seq<L.Event>)
      returns (fault: Option<SyncFault>, incomplete': seq<int>, ghost evs': seq<L.Event>)
    requires b.env == env && b.conc == conc && b.days == days && b.now == now && b.log == log
    requires b.truthful == Truthful(env.days, snaps, log, now)
    requires n < |days| && Underway(store, prog, b, n, incomplete, evs)
    modifies prog, store
    ensures fault.None? ==> Underway(store, prog, b, n + 1, incomplete', evs')
    ensures fault.Some? ==> Over(store, prog, b, n, incomplete', evs', fault)
  {
    if env.stop(n) {
      fault, incomplete', evs' := Some(Interrupted), incomplete, evs;
      EndsHere(store, prog, b, n, incomplete, evs);
    } else {
      fault, incomplete', evs' := DayTurn(store, days, n, incomplete, now, prog, conc, env, snaps, log, b, evs);
    }
  }

  /** Fetches the planned days one by one, marking each as soon as it is done. */
  method SyncDays(store: Local, days: seq<SyncDay>, now: int, prog: Progress, conc: int, env: SyncEnv,
                  ghost snaps: nat -> nat -> set<LogItem>, ghost log: set<LogItem>,
                  ghost b: Start, ghost plan: seq<L.Event>)
      returns (done: nat, incomplete: seq<int>, fault: Option<SyncFault>, ghost evs: seq<L.Event>)
    requires b.env == env && b.conc == conc && b.days == days && b.now == now && b.log == log
    requires b.truthful == Truthful(env.days, snaps, log, now)
    requires Underway(store, prog, b, 0, [], plan)
    modifies prog, store
    ensures Over(store, prog, b, done, incomplete, evs, fault)
  {
    done, incomplete, fault, evs := 0, [], None, plan;
    while done < |days|
      invariant fault.None? && Underway(store, prog, b, done, incomplete, evs)
      decreases |days| - done
    {
      fault, incomplete, evs := NextDay(store, days, done, incomplete, now, prog, conc, env, snaps, log, b, evs);
      if fault.Some? {
        return;
      }
      done := done + 1;
    }
    EndsHere(store, prog, b, done, incomplete, evs);
  }

  /** Only days fetched to their end less than 300 seconds after it, or not to their end, each
      from at most 600 seconds before the end of its window on. */
  ghost predicate FreshDaysOnly(todo: seq<SyncDay>, now: int) {
    forall t :: t in todo ==> (t.e < t.de || now < t.de + 300) && t.s >= Max(t.ds, t.e - 600)
  }

  /** After a sync without incomplete days, planning its window again leaves such days only. */
  lemma ReplanIsFresh(before: Marks, after: Marks, day: int, end: int, now: int, todo: seq<SyncDay>)
    requires day >= 1 && end <= now && todo == PlanFrom(before, Cst.DayStart(day), end).todo
    requires MarksGrow(before, after) && Finished(todo, |todo|, after, [], now)
    ensures FreshDaysOnly(PlanFrom(after, Cst.DayStart(day), end).todo, now)
  {
    var again := PlanFrom(after, Cst.DayStart(day), end).todo;
    PlanSchedules(before, day, end, now);
    PlanSchedules(after, day, end, now);
    forall t | t in again ensures (t.e < t.de || now < t.de + 300) && t.s >= Max(t.ds, t.e - 600) {
      var j :| 0 <= j < |again| && again[j] == t;
      assert PlannedFrom(t, after, now) && day <= t.day <= Cst.DayOf(end) && t.e == Min(t.de, end);
      PlanIsExact(before, day, end, t.day);
      StillIncomplete(before, after, t.day);
      assert Fetches(todo, t.day);
      var i :| 0 <= i < |todo| && todo[i].day == t.day;
      assert PlannedFrom(todo[i], before, now) && todo[i].e == Min(todo[i].de, end);
      DayIsFresh(after, t, todo[i], now);
    }
  }

  lemma StillIncomplete(before: Marks, after: Marks, day: int)
    requires day >= 1 && MarksGrow(before, after) && MarkOf(after, day) < LastSecond(day)
    ensures MarkOf(before, day) < LastSecond(day)
  {
    assert LastSecond(day) > 0;
  }

  lemma DayIsFresh(after: Marks, t: SyncDay, first: SyncDay, now: int)
    requires PlannedFrom(t, after, now) && t.day == first.day && t.de == first.de && t.e == first.e
    requires t.day in after && after[t.day] >= Until(first, now)
    ensures (t.e < t.de || now < t.de + 300) && t.s >= Max(t.ds, t.e - 600)
  {
  }

  /** Brings the days of [start, end] into the store, day by day. */
  method Sync(store: Local, start: int, end: int, now: int, prog: Progress, conc: int, env: SyncEnv,
              ghost snaps: nat -> nat -> set<LogItem>, ghost log: set<LogItem>)
      returns (res: SyncResult, fault: Option<SyncFault>, ghost todo: seq<SyncDay>, ghost evs: seq<L.Event>)
    requires start == Cst.DayStart(Cst.DayOf(start))
    modifies prog, store
    // What it does to the store is a legal history without deletions, and so keeps it sound.
    ensures Truthful(env.days, snaps, log, now) && Cst.DayOf(start) >= 1 ==>
      && LeadsTo(log, now, evs, old(store.rows), old(store.marks), store.rows, store.marks)
      && (Sound(old(store.rows), old(store.marks), log) ==> Sound(store.rows, store.marks, log))
    ensures MarksGrow(old(store.marks), store.marks) && (Keyed(old(store.rows)) ==> Keyed(store.rows))
    // What it plans and reports.
    ensures todo == if env.readOk then PlanFrom(old(store.marks), start, Min(end, now)).todo else []
    ensures res.daysCached == if env.readOk then PlanFrom(old(store.marks), start, Min(end, now)).cached else 0
    ensures res.daysTotal == |todo| && res.daysDone <= |todo|
    ensures Finished(todo, res.daysDone, store.marks, res.incomplete, now)
    ensures ReportsShort(todo, res.daysDone, res.incomplete, prog.short - old(prog.short))
    // When it fails, and why: it never goes on once the context is done.
    ensures forall i :: 0 <= i < res.daysDone ==> !env.stop(i)
    ensures fault.None? ==> res.daysDone == res.daysTotal && (env.readOk || Min(end, now) < start)
    ensures fault.Some? ==> Blames(fault.value, env, conc, todo, res.daysDone)
    ensures Truthful(env.days, snaps, log, now) && AtLimit(fault) ==> !Fits(log, todo[res.daysDone])
    ensures Faultless(env, log) ==>
      res.incomplete == [] && (fault.None? <==> forall i :: 0 <= i < |todo| ==> Fits(log, todo[i]))
    ensures AllPrompt(env, log) ==> prog.calls <= old(prog.calls) + SyncCost(log, todo, |todo|)
    // Planned again at once, the window has no day that is over for 300 seconds, and no other one
    // is fetched from more than 600 seconds before its end or the window's.
    ensures fault.None? && env.readOk && res.incomplete == [] && Cst.DayOf(start) >= 1 ==>
      FreshDaysOnly(PlanFrom(store.marks, start, Min(end, now)).todo, now)
  {
    ghost var l0 := L.Ledger(store.rows, store.marks, now, [], {}, None);
    evs := [];
    var days, cached, ok := Plan(store, start, end, now, env.readOk);
    todo := days;
    res, fault := SyncResult(|days|, 0, cached, []), None;
    if !ok {
      return res, Some(ReadFailed), todo, evs;
    }
    ghost var traced := Truthful(env.days, snaps, log, now) && Cst.DayOf(start) >= 1;
    if traced {
      evs := PlanReplays(log, store.rows, store.marks, start, end, now);
    }
    ghost var b := Start(env, conc, days, now, log, Truthful(env.days, snaps, log, now), traced, l0,
                         store.marks, Keyed(store.rows), prog.calls, prog.short);
    var done, incomplete;
    done, incomplete, fault, evs := SyncDays(store, days, now, prog, conc, env, snaps, log, b, evs);
    res := res.(daysDone := done, incomplete := incomplete);
    if fault.None? && incomplete == [] && Cst.DayOf(start) >= 1 {
      ReplanIsFresh(old(store.marks), store.marks, Cst.DayOf(start), Min(end, now), now, days);
    }
    if traced && Sound(old(store.rows), old(store.marks), log) {
      assert Observes(env.days(0), snaps(0), log, now);
      LedSound(log, now, evs, old(store.rows), old(store.marks), store.rows, store.marks);
    }
  }
}
