/** What one run of the segmented fetch over one planned day means for the local store. */
module DayFetch {
  import opened Basics
  import opened LogRows
  import opened SegmentFetch
  import opened SegmentLaws
  import opened Segments
  import opened CollectLaws
  import opened CollectRows
  import opened RequestBound
  import opened CollectLoop
  import opened CollectTheorems
  import opened Watermark

  // ---------------------------------------------------------------- what was emitted

  lemma EmittedFromLog(p: Params, env: Env, oc: Outcomes, snap: nat -> set<LogItem>, log: set<LogItem>, now: int,
                       failure: Option<Failure>, out: seq<Seg>, rest: seq<Seg>, partial: seq<LogItem>, c: Course)
    requires Runs(oc, env, p.Cap()) && Stops(p, env, oc, failure, out, rest, c) && Observes(env, snap, log, now)
    requires partial != [] ==> rest != [] && rest[0].done && partial <= rest[0].rows
    ensures forall r :: r in RowsOf(out) + partial ==> r in log
  {
    forall r | r in RowsOf(out) + partial ensures r in log {
      if r in RowsOf(out) {
        RowsMember(out, r);
        var sg :| sg in out && r in sg.rows;
        assert sg in out + rest;
        FilledFromLog(oc, env, p.Cap(), snap, log, now, c.Made(), sg);
      } else {
        assert rest[0] in out + rest && r in rest[0].rows;
        FilledFromLog(oc, env, p.Cap(), snap, log, now, c.Made(), rest[0]);
      }
    }
  }

  /** These rows include every row of the planned window that can no longer be late. */
  ghost predicate AllSettled(items: seq<LogItem>, log: set<LogItem>, t: SyncDay, now: int) {
    forall r :: r in log && t.s <= r.createdAt <= t.e && r.createdAt + LATENESS <= now ==> r in items
  }

  /** A complete run of which nothing was counted as short emits every settled row. */
  lemma SettledEmitted(p: Params, env: Env, oc: Outcomes, snap: nat -> set<LogItem>, log: set<LogItem>, now: int,
                       out: seq<Seg>, c: Course, t: SyncDay)
    requires Runs(oc, env, p.Cap()) && Stops(p, env, oc, None, out, [], c) && AllWhole(oc, c.Made(), out)
    requires Observes(env, snap, log, now) && p.users == [] && p.start == t.s && p.end == t.e
    ensures AllSettled(RowsOf(out), log, t, now)
  {
    assert out + [] == out;
    forall r | r in log && t.s <= r.createdAt <= t.e && r.createdAt + LATENESS <= now
      ensures r in RowsOf(out)
    {
      var sg := SecondCovered(AreaOf(p), Cursor(0, p.start), out, r.createdAt);
      WholeHoldsSettled(oc, env, p.Cap(), snap, log, now, c.Made(), sg, r);
      RowsMember(out, r);
    }
  }

  // ---------------------------------------------------------------- why it failed

  /** The last call of this very fetch failed this way, or the context ended right after it. */
  ghost predicate FetchFault(env: Env, g: nat, sg: Seg, cap: nat, f: Fault) {
    LastFails(env, g, sg.user, sg.s, sg.e, Asked(env, g, sg.user, sg.s, sg.e, cap), f)
  }

  /** The outside world gave the cause of a failure where the run stood: at its round, in one of
      the fetches it made, or at its emission.  The row limit is no such cause. */
  ghost predicate Caused(p: Params, env: Env, f: Failure, out: seq<Seg>, c: Course) {
    match f
    case RowLimit => true
    case Stopped => env.stop(c.rounds)
    case FetchFailed(fault) => exists g: nat :: g < |c.Made()| && FetchFault(env, g, c.Made()[g], p.Cap(), fault)
    case WriteFailed => exists b: nat :: !env.write(|out|, b)
  }

  lemma StopIsCaused(p: Params, env: Env, oc: Outcomes, failure: Failure, out: seq<Seg>, rest: seq<Seg>, c: Course)
    requires Runs(oc, env, p.Cap()) && Stops(p, env, oc, Some(failure), out, rest, c)
    ensures Caused(p, env, failure, out, c)
  {
    if failure.FetchFailed? {
      var g: nat :| FirstFault(oc, c.Made(), g, failure.fault);
      var sg := c.Made()[g];
      assert oc(g, sg.user, sg.s, sg.e) == Fetch(env, g, sg.user, sg.s, sg.e, p.Cap());
      FetchFails(env, g, sg.user, sg.s, sg.e, p.Cap());
      assert FetchFault(env, g, c.Made()[g], p.Cap(), failure.fault);
    }
  }

  /** The run over one planned day: the whole site, with the default limits. */
  function DayParams(t: SyncDay, conc: int): Params {
    Params(t.s, t.e, [], 0, conc, 0)
  }

  ghost function OutcomesOf(env: Env, cap: nat): Outcomes {
    (g: nat, user: string, s: int, e: int) => Fetch(env, g, user, s, e, cap)
  }

  /** The day's run comes to a point where it stops for this reason, and its cause lies there. */
  ghost predicate DayStops(t: SyncDay, conc: int, env: Env, f: Failure) {
    var p := DayParams(t, conc);
    exists out, rest, c :: StopsAt(p, env, f, out, rest, c)
  }

  ghost predicate StopsAt(p: Params, env: Env, f: Failure, out: seq<Seg>, rest: seq<Seg>, c: Course) {
    var oc := OutcomesOf(env, p.Cap());
    && Reached(oc, p.Conc(), AllDaySegs(p.Targets(), p.start, p.end), c, out + rest)
    && Stops(p, env, oc, Some(f), out, rest, c)
    && Caused(p, env, f, out, c)
  }

  /** A run that stops at the row limit has met more rows of its window than the limit. */
  lemma LimitIsReal(p: Params, env: Env, oc: Outcomes, snap: nat -> set<LogItem>, log: set<LogItem>, now: int,
                    out: seq<Seg>, rest: seq<Seg>, c: Course)
    requires Runs(oc, env, p.Cap()) && Stops(p, env, oc, Some(RowLimit), out, rest, c)
    requires Observes(env, snap, log, now) && p.users == []
    ensures |Matching(log, p.start, p.end, "")| > p.MaxTotal()
  {
    var a, next := AreaOf(p), out + [rest[0]];
    assert out + rest == next + rest[1..];
    AfterConcat(a, Cursor(0, a.s), next, rest[1..]);
    forall sg | sg in next ensures Filled(oc, c.Made(), sg) {
      assert sg in out + rest;
    }
    FilledFits(oc, env, p.Cap(), snap, log, now, c.Made(), a, next);
    RowsSnoc(out, rest[0]);
  }

  // ---------------------------------------------------------------- when it succeeds

  /** The upstream serves a static log and fails no page three times in a row, nothing is
      cancelled, and the store accepts every INSERT. */
  ghost predicate Faithful(env: Env, log: set<LogItem>) {
    && (exists order: (int, int, string) -> seq<LogItem>, per: nat :: Tolerates(env, log, order, per))
    && (forall r: nat :: !env.stop(r))
    && (forall k: nat, b: nat :: env.write(k, b))
  }

  /** Then a whole-site run succeeds if and only if its window has no more rows than the limit. */
  lemma FaithfulDay(p: Params, env: Env, oc: Outcomes, log: set<LogItem>,
                    failure: Option<Failure>, out: seq<Seg>, rest: seq<Seg>, c: Course)
    requires Runs(oc, env, p.Cap()) && Stops(p, env, oc, failure, out, rest, c)
    requires Faithful(env, log) && p.users == []
    ensures failure.None? <==> |Matching(log, p.start, p.end, "")| <= p.MaxTotal()
    ensures Spent(oc, c.Made()).shorts == 0
  {
    var order: (int, int, string) -> seq<LogItem>, per: nat :| Tolerates(env, log, order, per);
    FaithfulRunSucceeds(p, env, oc, log, order, per, failure, out, rest, c);
    ToleratesSettles(oc, env, p.Cap(), log, order, per);
    SettlesHasNoFault(oc, log, p.Cap(), c.Made(), |c.Made()|);
    WindowSize(p, log);
  }

  lemma WindowSize(p: Params, log: set<LogItem>)
    requires UniqueIds(log) && p.users == []
    ensures |Windows(log, AreaOf(p), 0)| == |Matching(log, p.start, p.end, "")|
  {
    var rows := Matching(log, p.start, p.end, "");
    OrderedLists(rows);
    ListingSize(Ordered(rows), rows);
    assert Windows(log, AreaOf(p), 1) == [];
    assert Windows(log, AreaOf(p), 0) == Ordered(rows) + [];
  }

  /** What the fetch of a planned day may cost in upstream calls. */
  ghost function DayCost(log: set<LogItem>, t: SyncDay): nat {
    var rows := |Matching(log, t.s, t.e, "")|;
    2 * CutBudget(rows, WINDOW_CAP, 17) + |AllDaySegs([""], t.s, t.e)| + rows / PAGE_SIZE
  }

  /** The upstream answers every call with its page at once. */
  ghost predicate Prompt(env: Env, log: set<LogItem>) {
    exists order: (int, int, string) -> seq<LogItem> :: Serves(env, log, order)
  }

  /** Then no run over a day costs more, however it ends. */
  lemma DayWithinCost(t: SyncDay, conc: int, env: Env, log: set<LogItem>,
                      failure: Option<Failure>, out: seq<Seg>, rest: seq<Seg>, c: Course)
    requires var p := DayParams(t, conc);
      var oc := OutcomesOf(env, p.Cap());
      && Runs(oc, env, p.Cap()) && Stops(p, env, oc, failure, out, rest, c)
      && Reached(oc, p.Conc(), AllDaySegs(p.Targets(), p.start, p.end), c, out + rest)
    requires Prompt(env, log)
    ensures Spent(OutcomesOf(env, WINDOW_CAP), c.Made()).calls <= DayCost(log, t)
  {
    var p := DayParams(t, conc);
    var oc := OutcomesOf(env, p.Cap());
    var order: (int, int, string) -> seq<LogItem> :| Serves(env, log, order);
    ServesExact(oc, env, p.Cap(), log, order);
    RequestsBounded(p, oc, log, c, out + rest);
    WindowSize(p, log);
  }

  // ---------------------------------------------------------------- what a run over a day means

  /** Where a run over a day ended. */
  datatype DayRun = DayRun(failure: Option<Failure>, out: seq<Seg>, rest: seq<Seg>, partial: seq<LogItem>, c: Course)
  {
    ghost function Items(): seq<LogItem> {
      RowsOf(out) + partial
    }
  }

  ghost predicate Ran(t: SyncDay, conc: int, env: Env, run: DayRun) {
    var p := DayParams(t, conc);
    var oc := OutcomesOf(env, p.Cap());
    && Reached(oc, p.Conc(), AllDaySegs(p.Targets(), p.start, p.end), run.c, run.out + run.rest)
    && Stops(p, env, oc, run.failure, run.out, run.rest, run.c)
    && (Spent(oc, run.c.Made()).shorts == 0 ==> AllWhole(oc, run.c.Made(), run.out))
    && (run.failure.None? ==> run.partial == [])
    && (run.partial != [] ==> run.rest != [] && run.rest[0].done && run.partial <= run.rest[0].rows)
  }

  /** What it brought: rows of the log, and unless a segment was short, all settled ones. */
  lemma RunBrings(t: SyncDay, conc: int, env: Env, run: DayRun, snap: nat -> set<LogItem>, log: set<LogItem>, now: int)
    requires Ran(t, conc, env, run) && Observes(env, snap, log, now)
    ensures forall r :: r in run.Items() ==> r in log
    ensures run.failure.None? && Spent(OutcomesOf(env, WINDOW_CAP), run.c.Made()).shorts == 0
      ==> AllSettled(run.Items(), log, t, now)
    ensures run.failure == Some(RowLimit) ==> |Matching(log, t.s, t.e, "")| > MAX_TOTAL_ROWS
  {
    var p := DayParams(t, conc);
    var oc := OutcomesOf(env, p.Cap());
    assert Runs(oc, env, p.Cap());
    EmittedFromLog(p, env, oc, snap, log, now, run.failure, run.out, run.rest, run.partial, run.c);
    if run.failure.None? && Spent(oc, run.c.Made()).shorts == 0 {
      SettledEmitted(p, env, oc, snap, log, now, run.out, run.c, t);
      assert run.Items() == RowsOf(run.out);
    }
    if run.failure == Some(RowLimit) {
      LimitIsReal(p, env, oc, snap, log, now, run.out, run.rest, run.c);
    }
  }

  /** A failed run stops at its cause. */
  lemma RunStops(t: SyncDay, conc: int, env: Env, run: DayRun)
    requires Ran(t, conc, env, run) && run.failure.Some?
    ensures DayStops(t, conc, env, run.failure.value)
  {
    var p := DayParams(t, conc);
    var oc := OutcomesOf(env, p.Cap());
    assert Runs(oc, env, p.Cap());
    StopIsCaused(p, env, oc, run.failure.value, run.out, run.rest, run.c);
    assert StopsAt(p, env, run.failure.value, run.out, run.rest, run.c);
  }

  /** In a faithful world it succeeds exactly when the window fits. */
  lemma RunIsFaithful(t: SyncDay, conc: int, env: Env, run: DayRun, log: set<LogItem>)
    requires Ran(t, conc, env, run) && Faithful(env, log)
    ensures run.failure.None? <==> |Matching(log, t.s, t.e, "")| <= MAX_TOTAL_ROWS
    ensures Spent(OutcomesOf(env, WINDOW_CAP), run.c.Made()).shorts == 0
  {
    var p := DayParams(t, conc);
    var oc := OutcomesOf(env, p.Cap());
    assert Runs(oc, env, p.Cap());
    FaithfulDay(p, env, oc, log, run.failure, run.out, run.rest, run.c);
  }

  /** Against a prompt upstream it costs no more than the day may cost. */
  lemma RunIsThrifty(t: SyncDay, conc: int, env: Env, run: DayRun, log: set<LogItem>)
    requires Ran(t, conc, env, run) && Prompt(env, log)
    ensures Spent(OutcomesOf(env, WINDOW_CAP), run.c.Made()).calls <= DayCost(log, t)
  {
    var p := DayParams(t, conc);
    var oc := OutcomesOf(env, p.Cap());
    assert Runs(oc, env, p.Cap());
    DayWithinCost(t, conc, env, log, run.failure, run.out, run.rest, run.c);
  }
}
