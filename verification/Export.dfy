/** The export job end to end (backend/internal/api/detail.go: runDetail): bring the missing
    days into the local store, then stream the store into sheet files. */
module Export {
  import opened Basics
  import opened LogRows
  import opened SegmentFetch
  import opened SegmentLaws
  import opened LocalStore
  import opened LocalStream
  import opened Segments
  import opened CollectRows
  import opened Watermark
  import opened DaySync
  import opened Xlsx
  import Cst

  const STREAM_PAGE := 5000

  /** The upstream rows of the range and users. */
  ghost function LogWindow(log: set<LogItem>, start: int, end: int, users: seq<string>): set<LogItem> {
    set r | r in log && Wanted(r, start, end, users)
  }

  /** They are what upstream matches for the window and each named user, or for everybody. */
  lemma WindowIsMatched(log: set<LogItem>, start: int, end: int, users: seq<string>, r: LogItem)
    ensures r in LogWindow(log, start, end, users) <==>
      r in log && start <= r.createdAt <= end && (users == [] || r.user in users)
    ensures "" !in users ==>
      (r in LogWindow(log, start, end, users) <==>
         if users == [] then r in Matching(log, start, end, "")
         else exists u :: u in users && r in Matching(log, start, end, u))
  {
    if r in log && start <= r.createdAt <= end && r.user in users {
      assert r in Matching(log, start, end, r.user);
    }
  }

  /** Every day of the range is marked complete. */
  ghost predicate Complete(marks: Marks, start: int, end: int) {
    forall d :: Cst.DayOf(start) <= d <= Cst.DayOf(end) ==> d in marks && marks[d] >= LastSecond(d)
  }

  /** When a sync ran through without incomplete days, late enough after the range, every
      day of the range is marked complete. */
  lemma SyncedRangeIsComplete(before: Marks, after: Marks, start: int, end: int, now: int, todo: seq<SyncDay>)
    requires start == Cst.DayStart(Cst.DayOf(start)) && end == LastSecond(Cst.DayOf(end))
    requires Cst.DayOf(start) >= 1 && now >= end + SETTLE_SECS
    requires todo == PlanFrom(before, start, end).todo
    requires MarksGrow(before, after) && Finished(todo, |todo|, after, [], now)
    ensures Complete(after, start, end)
  {
    forall d | Cst.DayOf(start) <= d <= Cst.DayOf(end)
      ensures d in after && after[d] >= LastSecond(d)
    {
      PlanIsExact(before, Cst.DayOf(start), end, d);
      PlanSchedules(before, Cst.DayOf(start), end, now);
      Cst.DayBounds(end, Cst.DayOf(end));
      if Watermark.Fetches(todo, d) {
        var i :| 0 <= i < |todo| && todo[i].day == d;
        assert PlannedFrom(todo[i], before, now) && todo[i].e == Min(todo[i].de, end);
      } else {
        assert MarkOf(before, d) >= LastSecond(d) > 0;
      }
    }
  }

  /** A sound store whose days are marked complete holds exactly the upstream rows of the range. */
  lemma CompleteRangeIsExact(rows: Table, marks: Marks, log: set<LogItem>, start: int, end: int, users: seq<string>)
    requires Sound(rows, marks, log) && Complete(marks, start, end)
    ensures Selected(rows, start, end, users) == LogWindow(log, start, end, users)
  {
    forall r | r in LogWindow(log, start, end, users)
      ensures r in Selected(rows, start, end, users)
    {
      var d := Cst.DayOf(r.createdAt);
      Cst.DayMonotone(start, r.createdAt);
      Cst.DayMonotone(r.createdAt, end);
      assert d in marks && Covered(rows, log, d, marks[d]);
      assert Holds(rows, r);
    }
  }

  /** Older rows come first, and of one second those with the smaller id. */
  ghost predicate ByTimeAndId(s: seq<LogItem>) {
    forall i, j :: 0 <= i < j < |s| ==>
      s[i].createdAt < s[j].createdAt || (s[i].createdAt == s[j].createdAt && s[i].id < s[j].id)
  }

  /** The files in order list these rows, each once, ordered by time and id; no two share a name. */
  ghost predicate HoldRows(files: seq<File>, disk: map<string, seq<LogItem>>, rows: set<LogItem>) {
    && (forall k :: 0 <= k < |files| ==> files[k].path in disk)
    && Lists(Concat(Contents(files, disk)), rows)
    && ByTimeAndId(Concat(Contents(files, disk)))
    && (forall i, j :: 0 <= i < j < |files| ==> files[i].name != files[j].name)
  }

  /** End to end: when the store holds exactly the upstream rows of the range and users, the
      delivered files do. */
  lemma ExportedFilesAreUpstreamRows(rows: Table, log: set<LogItem>, start: int, end: int, users: seq<string>,
                                     files: seq<File>, disk: map<string, seq<LogItem>>, perFile: int, base: string)
    requires UniqueIds(log)
    requires Selected(rows, start, end, users) == LogWindow(log, start, end, users)
    requires Delivered(files, disk, Chunks(Ordered(Selected(rows, start, end, users)), ClampPerFile(perFile)), base)
    ensures HoldRows(files, disk, LogWindow(log, start, end, users))
  {
    var all := Ordered(Selected(rows, start, end, users));
    OrderedLists(Selected(rows, start, end, users));
    DeliveredFiles(files, disk, all, ClampPerFile(perFile), base);
  }

  datatype ExportEnd =
    | Exported(files: seq<File>, disk: map<string, seq<LogItem>>)
    | SyncFailed(fault: SyncFault)
    | CountFailed
    | TooMany(total: nat)
    | StreamFailed(end: StreamEnd)
    | CloseFailed

  /** What the export needs from outside: the worlds of the sync, the scan and the writer. */
  datatype ExportEnv = ExportEnv(sync: SyncEnv, countOk: bool, stream: StreamEnv, close: Io)

  /** What an export that was not delivered goes back to. */
  ghost predicate Causes(outcome: ExportEnd, env: ExportEnv, conc: int, todo: seq<SyncDay>, done: nat,
                         chosen: set<LogItem>) {
    match outcome
    case Exported(_, _) => true
    case SyncFailed(fault) => Blames(fault, env.sync, conc, todo, done)
    case CountFailed => !env.countOk
    case TooMany(total) => total == |chosen| > MAX_TOTAL_ROWS
    case StreamFailed(end) => StreamBlames(end, env.stream)
    case CloseFailed => !(env.close.create && env.close.save && forall k: nat :: env.close.rename(k))
  }

  ghost predicate StreamBlames(end: StreamEnd, env: StreamEnv) {
    match end
    case Done => false
    case QueryFailed => exists p: nat :: !env.query(p)
    case AddFailed => IoFault(env)
    case ContextDone => exists p: nat :: !env.alive(p)
  }

  /** Nothing fails and nothing is cancelled during the whole export. */
  ghost predicate Smooth(env: ExportEnv, log: set<LogItem>) {
    && Faultless(env.sync, log) && env.countOk
    && (forall p: nat :: env.stream.query(p) && env.stream.alive(p)) && !IoFault(env.stream)
    && env.close.create && env.close.save && forall k: nat :: env.close.rename(k)
  }

  /** A smooth export is delivered if and only if every planned day and the selection fit. */
  ghost predicate Fitting(log: set<LogItem>, todo: seq<SyncDay>, chosen: set<LogItem>) {
    (forall i :: 0 <= i < |todo| ==> Fits(log, todo[i])) && |chosen| <= MAX_TOTAL_ROWS
  }

  lemma SmallLogFits(log: set<LogItem>, todo: seq<SyncDay>, rows: Table, start: int, end: int, users: seq<string>)
    requires |log| <= MAX_TOTAL_ROWS && Within(rows, log)
    ensures Fitting(log, todo, Selected(rows, start, end, users))
  {
    forall i | 0 <= i < |todo| ensures Fits(log, todo[i]) {
      SubsetSize(Matching(log, todo[i].s, todo[i].e, ""), log);
    }
    SubsetSize(Selected(rows, start, end, users), log);
  }

  /** Whole days, the last one over for SETTLE_SECS. */
  predicate Settled(start: int, end: int, now: int) {
    Cst.DayOf(start) >= 1 && start <= end && end == LastSecond(Cst.DayOf(end)) && now >= end + SETTLE_SECS
  }

  method RunDetail(store: Local, start: int, end: int, users: seq<string>, rowsPerFile: int, base: string,
                   now: int, prog: Progress, conc: int, env: ExportEnv,
                   ghost snaps: nat -> nat -> set<LogItem>, ghost log: set<LogItem>)
      returns (outcome: ExportEnd, res: SyncResult, ghost todo: seq<SyncDay>)
    requires start == Cst.DayStart(Cst.DayOf(start)) && Keyed(store.rows)
    modifies prog, store
    ensures Keyed(store.rows)
    // The files hold exactly the local rows of the range and users, in order.
    ensures outcome.Exported? ==>
      && UniqueIds(Selected(store.rows, start, end, users))
      && |Selected(store.rows, start, end, users)| <= MAX_TOTAL_ROWS
      && Delivered(outcome.files, outcome.disk,
                   Chunks(Ordered(Selected(store.rows, start, end, users)), ClampPerFile(rowsPerFile)), base)
    ensures outcome.Exported? ==> env.countOk && res.daysDone == |todo|
    // And when no day came up short, they are exactly the upstream rows.
    ensures outcome.Exported? && res.incomplete == [] && Settled(start, end, now)
            && Truthful(env.sync.days, snaps, log, now) && Sound(old(store.rows), old(store.marks), log)
      ==> HoldRows(outcome.files, outcome.disk, LogWindow(log, start, end, users))
    // When it is not delivered, and why.
    ensures Causes(outcome, env, conc, todo, res.daysDone, Selected(store.rows, start, end, users))
    ensures Smooth(env, log) ==>
      res.incomplete == [] && (outcome.Exported? <==> Fitting(log, todo, Selected(store.rows, start, end, users)))
    ensures AllPrompt(env.sync, log) ==> prog.calls <= old(prog.calls) + SyncCost(log, todo, |todo|)
    ensures Smooth(env, log) && |log| <= MAX_TOTAL_ROWS && Cst.DayOf(start) >= 1
            && Truthful(env.sync.days, snaps, log, now) && Sound(old(store.rows), old(store.marks), log)
      ==> outcome.Exported?
  {
    var fault;
    ghost var evs;
    res, fault, todo, evs := Sync(store, start, end, now, prog, conc, env.sync, snaps, log);
    if |log| <= MAX_TOTAL_ROWS && Within(store.rows, log) {
      SmallLogFits(log, todo, store.rows, start, end, users);
    }
    if fault.Some? {
      return SyncFailed(fault.value), res, todo;
    }
    ghost var exact := res.incomplete == [] && Settled(start, end, now)
      && Truthful(env.sync.days, snaps, log, now) && Sound(old(store.rows), old(store.marks), log);
    if exact {
      SyncedRangeIsComplete(old(store.marks), store.marks, start, end, now, todo);
      CompleteRangeIsExact(store.rows, store.marks, log, start, end, users);
    }
    if !env.countOk {
      return CountFailed, res, todo;
    }
    var total := Count(store, start, end, users);
    if total > MAX_TOTAL_ROWS {
      return TooMany(total), res, todo;
    }
    outcome := WriteFiles(store, start, end, users, rowsPerFile, base, env);
    if exact && outcome.Exported? {
      assert Observes(env.sync.days(0), snaps(0), log, now);
      ExportedFilesAreUpstreamRows(store.rows, log, start, end, users, outcome.files, outcome.disk, rowsPerFile, base);
    }
  }

  method WriteFiles(store: Local, start: int, end: int, users: seq<string>, rowsPerFile: int, base: string,
                    env: ExportEnv)
      returns (outcome: ExportEnd)
    requires Keyed(store.rows)
    ensures outcome.Exported? ==>
      && UniqueIds(Selected(store.rows, start, end, users))
      && Delivered(outcome.files, outcome.disk,
                   Chunks(Ordered(Selected(store.rows, start, end, users)), ClampPerFile(rowsPerFile)), base)
    ensures outcome.Exported? || outcome.StreamFailed? || outcome.CloseFailed?
    ensures Causes(outcome, env, 0, [], 0, {})
  {
    SelectedUnique(store.rows, start, end, users);
    ghost var chosen := Selected(store.rows, start, end, users);
    ghost var all := Ordered(chosen);
    var w := new Writer(base, rowsPerFile);
    var reached, n := Stream(store, start, end, users, STREAM_PAGE, env.stream, w, chosen, all);
    if reached != Done {
      return StreamFailed(reached);
    }
    assert w.rows == all;
    var ok, files := w.Close(env.close);
    if !ok {
      return CloseFailed;
    }
    outcome := Exported(files, w.disk);
  }
}
