/** Watermark soundness over whole histories.  The store is shared by at most one sync at a
    time (the gate) and by one prune, which does not take the gate: a history interleaves
    the INSERTs, watermark updates and failures of syncs with the single statements of
    prunes, the row deletions and the final deletion of watermarks, at any points. */
module SyncLedger {
  import opened Basics
  import opened LogRows
  import opened SegmentLaws
  import opened LocalStore
  import opened CollectRows
  import opened Watermark
  import Cst

  /** A prune under way: its cut-off day, and whether its last row deletion is done. */
  datatype Pruning = Pruning(day: int, cleared: bool)

  /** The tables, and the sync in progress: its clock reading, the planned days it has not
      finished, and the rows it has stored for the first of them; and the prune in progress. */
  datatype Ledger = Ledger(rows: Table, marks: Marks, now: int, pending: seq<SyncDay>, stored: set<LogItem>,
                           prune: Option<Pruning>)

  datatype Event =
    | Begin(day: int, end: int, now: int)         // a sync reads the clock and plans its days
    | Store(items: seq<LogItem>)                  // an INSERT of upstream rows
    | Mark                                        // the first pending day is complete
    | Skip                                        // the first pending day came up short
    | Abort                                       // the sync fails or is cancelled
    | StartPrune(day: int)                        // a prune up to the start of a day begins
    | DeleteRows(lost: set<Id>, last: bool)       // it deletes a batch of rows
    | DeleteMarks                                 // it deletes the watermarks and is complete
    | FailPrune                                   // it fails

  /** An older row than the prune under way keeps. */
  ghost predicate Old(l: Ledger, id: Id) {
    l.prune.Some? && id in l.rows && l.rows[id].createdAt < Cst.DayStart(l.prune.value.day)
  }

  /** The prune under way has batches left to delete. */
  ghost predicate Sweeping(l: Ledger) {
    l.prune.Some? && !l.prune.value.cleared
  }

  ghost predicate Enabled(log: set<LogItem>, l: Ledger, ev: Event) {
    match ev
    case Begin(day, _, _) => l.pending == [] && day >= 1
    case Store(items) => l.pending != [] && forall r :: r in items ==> r in log
    case Mark =>
      l.pending != [] &&
      forall r :: r in log && l.pending[0].s <= r.createdAt <= l.pending[0].e && r.createdAt + LATENESS <= l.now
        ==> r in l.stored
    case Skip => l.pending != []
    case Abort => true
    case StartPrune(_) => l.prune.None?
    case DeleteRows(lost, last) =>
      Sweeping(l) && (forall id :: id in lost ==> Old(l, id)) && (last ==> forall id :: Old(l, id) ==> id in lost)
    case DeleteMarks => l.prune.Some? && l.prune.value.cleared
    case FailPrune => l.prune.Some?
  }

  /** The table without some of its rows. */
  ghost function Minus(rows: Table, lost: set<Id>): Table {
    map id | id in rows && id !in lost :: rows[id]
  }

  ghost function Apply(l: Ledger, ev: Event): Ledger {
    match ev
    case Begin(day, end, now) =>
      l.(now := now, pending := PlanFrom(l.marks, Cst.DayStart(day), Min(end, now)).todo, stored := {})
    case Store(items) => l.(rows := UpsertAll(l.rows, items), stored := l.stored + set r | r in items)
    case Mark =>
      if l.pending == [] then l
      else
        var t := l.pending[0];
        l.(marks := Raise(l.marks, t.day, Until(t, l.now)), pending := l.pending[1..], stored := {})
    case Skip => if l.pending == [] then l else l.(pending := l.pending[1..], stored := {})
    case Abort => l.(pending := [], stored := {})
    case StartPrune(day) => l.(prune := Some(Pruning(day, false)))
    case DeleteRows(lost, last) =>
      if l.prune.None? then l else l.(rows := Minus(l.rows, lost), prune := Some(l.prune.value.(cleared := last)))
    case DeleteMarks => if l.prune.None? then l else l.(marks := MarksFrom(l.marks, l.prune.value.day), prune := None)
    case FailPrune => l.(prune := None)
  }

  ghost predicate Deletes(ev: Event) {
    ev.StartPrune? || ev.DeleteRows? || ev.DeleteMarks? || ev.FailPrune?
  }

  // ---------------------------------------------------------------- safe states

  ghost predicate WellPlanned(t: SyncDay, now: int) {
    t.ds == Cst.DayStart(t.day) && t.de == LastSecond(t.day) && t.ds <= t.e <= t.de && t.e <= now
  }

  ghost predicate Shape(log: set<LogItem>, l: Ledger) {
    && UniqueIds(log) && NonZeroIds(log) && Within(l.rows, log)
    && (forall i :: 0 <= i < |l.pending| ==> WellPlanned(l.pending[i], l.now))
    && (forall i, j :: 0 <= i < j < |l.pending| ==> l.pending[i].day < l.pending[j].day)
    && (forall r :: r in l.stored ==> r in log)
  }

  /** Once it is complete, pending day `i` promises `r` without having to store it again. */
  ghost predicate Counted(l: Ledger, i: nat, r: LogItem) {
    && i < |l.pending| && l.pending[i].day == Cst.DayOf(r.createdAt)
    && Promises(Until(l.pending[i], l.now), r)
    && (r.createdAt < l.pending[i].s || (i == 0 && r in l.stored))
  }

  ghost predicate CountedOn(l: Ledger, r: LogItem) {
    exists i: nat :: Counted(l, i, r)
  }

  /** The watermark of this day goes when the prune under way completes. */
  ghost predicate Doomed(l: Ledger, day: int) {
    l.prune.Some? && day < l.prune.value.day
  }

  /** Whether the watermarks promise a row. */
  predicate Promised(marks: Marks, r: LogItem) {
    Cst.DayOf(r.createdAt) in marks && Promises(marks[Cst.DayOf(r.createdAt)], r)
  }

  /** A watermark that stays promises `r`, or a pending day counts on it. */
  ghost predicate Needed(l: Ledger, r: LogItem) {
    (Promised(l.marks, r) && !Doomed(l, Cst.DayOf(r.createdAt))) || CountedOn(l, r)
  }

  /** The prune under way may still delete a row that a pending day counts on. */
  ghost predicate AtRisk(l: Ledger, r: LogItem) {
    Sweeping(l) && Doomed(l, Cst.DayOf(r.createdAt)) && CountedOn(l, r)
  }

  /** Every needed row is in the store and stays there. */
  ghost predicate Safe(log: set<LogItem>, l: Ledger) {
    Shape(log, l) && forall r :: r in log && Needed(l, r) ==> Holds(l.rows, r) && !AtRisk(l, r)
  }

  /** Every watermark keeps its promise, but for those that the prune under way will delete. */
  ghost predicate Honest(log: set<LogItem>, l: Ledger) {
    Within(l.rows, log) && forall d :: d in l.marks && !Doomed(l, d) ==> Covered(l.rows, log, d, l.marks[d])
  }

  lemma SafeIsHonest(log: set<LogItem>, l: Ledger)
    requires Safe(log, l)
    ensures Honest(log, l)
    ensures l.prune.None? ==> Sound(l.rows, l.marks, log)
  {
    forall d | d in l.marks && !Doomed(l, d) ensures Covered(l.rows, log, d, l.marks[d]) {
      assert forall r :: r in log && Cst.DayOf(r.createdAt) == d && Promises(l.marks[d], r) ==> Needed(l, r);
    }
  }

  /** When neither a sync nor a prune is under way, safe means sound. */
  lemma IdleIsSafe(log: set<LogItem>, l: Ledger)
    requires UniqueIds(log) && NonZeroIds(log) && l.pending == [] && l.stored == {} && l.prune.None?
    ensures Safe(log, l) <==> Sound(l.rows, l.marks, log)
  {
    if Safe(log, l) {
      SafeIsHonest(log, l);
    }
    if Sound(l.rows, l.marks, log) {
      forall r | r in log && Needed(l, r) ensures Holds(l.rows, r) {
        assert !CountedOn(l, r);
        assert Covered(l.rows, log, Cst.DayOf(r.createdAt), l.marks[Cst.DayOf(r.createdAt)]);
      }
    }
  }

  // ---------------------------------------------------------------- when a step is harmless

  /** No row of a day whose watermark is doomed is counted on after this step, unless no more
      rows are deleted and it is there. */
  ghost predicate SparesDoomed(log: set<LogItem>, l: Ledger, l': Ledger) {
    forall r :: r in log && Doomed(l, Cst.DayOf(r.createdAt)) && CountedOn(l', r)
      ==> !Sweeping(l) && Holds(l'.rows, r)
  }

  /** A sync must not begin to count on rows that the prune under way deletes, a prune must not
      begin while a day before its cut-off is counted on, and it must not fail after it has
      deleted a row that a watermark promises. */
  ghost predicate Harmless(log: set<LogItem>, l: Ledger, ev: Event) {
    match ev
    case Begin(_, _, _) => SparesDoomed(log, l, Apply(l, ev))
    case Store(_) => SparesDoomed(log, l, Apply(l, ev))
    case StartPrune(day) => forall r :: r in log && CountedOn(l, r) ==> Cst.DayOf(r.createdAt) >= day
    case FailPrune =>
      forall r :: r in log && Doomed(l, Cst.DayOf(r.createdAt)) && Promised(l.marks, r) ==> Holds(l.rows, r)
    case _ => true
  }

  /** What a caller can check: syncs and prunes keep out of each other's days. */
  ghost predicate Careful(l: Ledger, ev: Event) {
    match ev
    case Begin(day, _, _) => l.prune.Some? ==> l.prune.value.day <= day
    case Store(_) => l.prune.Some? && l.pending != [] ==> l.prune.value.day <= l.pending[0].day
    case StartPrune(day) => forall i :: 0 <= i < |l.pending| ==> day <= l.pending[i].day
    case FailPrune => false
    case _ => true
  }

  // ---------------------------------------------------------------- the steps of a sync

  lemma BeginShape(log: set<LogItem>, l: Ledger, day: int, end: int, now: int)
    requires Shape(log, l) && day >= 1
    ensures Shape(log, Apply(l, Begin(day, end, now)))
    ensures forall i: nat, r :: Counted(Apply(l, Begin(day, end, now)), i, r) ==> Promised(l.marks, r)
    ensures forall i: nat, r :: Counted(Apply(l, Begin(day, end, now)), i, r) ==> Cst.DayOf(r.createdAt) >= day
  {
    var l' := Apply(l, Begin(day, end, now));
    PlanSchedules(l.marks, day, Min(end, now), now);
    forall i: nat, r | Counted(l', i, r) ensures Promised(l.marks, r) && Cst.DayOf(r.createdAt) >= day {
      assert PlannedFrom(l'.pending[i], l.marks, now);
      Cst.DayBounds(r.createdAt, l'.pending[i].day);
    }
  }

  lemma BeginIsExact(log: set<LogItem>, l: Ledger, day: int, end: int, now: int)
    requires Safe(log, l) && day >= 1
    ensures Safe(log, Apply(l, Begin(day, end, now))) <==> Harmless(log, l, Begin(day, end, now))
  {
    var l' := Apply(l, Begin(day, end, now));
    BeginShape(log, l, day, end, now);
    forall r | r in log && Needed(l', r) && !Doomed(l, Cst.DayOf(r.createdAt))
      ensures Holds(l'.rows, r) && !AtRisk(l', r)
    {
      assert Needed(l, r);
    }
  }

  lemma StoreShape(log: set<LogItem>, l: Ledger, items: seq<LogItem>)
    requires Shape(log, l) && Enabled(log, l, Store(items))
    ensures var l' := Apply(l, Store(items));
      && Shape(log, l') && (forall r :: Holds(l'.rows, r) <==> Holds(l.rows, r) || r in items)
      && (forall i: nat, r :: Counted(l', i, r) ==> Counted(l, i, r) || (i == 0 && r in items))
  {
    UpsertFromLog(l.rows, items, log);
  }

  lemma StoreIsExact(log: set<LogItem>, l: Ledger, items: seq<LogItem>)
    requires Safe(log, l) && Enabled(log, l, Store(items))
    ensures Safe(log, Apply(l, Store(items))) <==> Harmless(log, l, Store(items))
  {
    var l' := Apply(l, Store(items));
    StoreShape(log, l, items);
    forall r | r in log && Needed(l', r) ensures Holds(l'.rows, r) {
      if r !in items {
        if CountedOn(l', r) {
          var i: nat :| Counted(l', i, r);
          assert Counted(l, i, r);
        }
        assert Needed(l, r);
      }
    }
  }

  lemma MarkKeeps(log: set<LogItem>, l: Ledger)
    requires Safe(log, l) && Enabled(log, l, Mark)
    ensures Safe(log, Apply(l, Mark))
  {
    var l', t := Apply(l, Mark), l.pending[0];
    forall r | r in log && Needed(l', r) ensures Needed(l, r) && (AtRisk(l', r) ==> AtRisk(l, r)) {
      if CountedOn(l', r) {
        var i: nat :| Counted(l', i, r);
        assert l'.pending[i] == l.pending[i + 1] && Counted(l, i + 1, r);
      } else if Cst.DayOf(r.createdAt) == t.day && Promises(Until(t, l.now), r) {
        PromiseIsSettled(t, l.now, r);
        assert Counted(l, 0, r);
      }
    }
  }

  lemma SkipKeeps(log: set<LogItem>, l: Ledger)
    requires Safe(log, l) && l.pending != []
    ensures Safe(log, Apply(l, Skip))
  {
    var l' := Apply(l, Skip);
    forall r | r in log && Needed(l', r) ensures Needed(l, r) && (AtRisk(l', r) ==> AtRisk(l, r)) {
      if CountedOn(l', r) {
        var i: nat :| Counted(l', i, r);
        assert l'.pending[i] == l.pending[i + 1] && Counted(l, i + 1, r);
      }
    }
  }

  lemma AbortKeeps(log: set<LogItem>, l: Ledger)
    requires Safe(log, l)
    ensures Safe(log, Apply(l, Abort))
  {
    forall r ensures Needed(Apply(l, Abort), r) ==> Needed(l, r) && !CountedOn(Apply(l, Abort), r) {
    }
  }

  // ---------------------------------------------------------------- the steps of a prune

  /** Steps that leave the pending days and what they have stored alone count on the same rows. */
  lemma SameCounted(l: Ledger, l': Ledger)
    requires l'.pending == l.pending && l'.stored == l.stored && l'.now == l.now
    ensures forall r :: CountedOn(l', r) <==> CountedOn(l, r)
  {
    forall r, i: nat ensures Counted(l', i, r) <==> Counted(l, i, r) {
    }
  }

  lemma StartIsExact(log: set<LogItem>, l: Ledger, day: int)
    requires Safe(log, l) && l.prune.None?
    ensures Safe(log, Apply(l, StartPrune(day))) <==> Harmless(log, l, StartPrune(day))
  {
    var l' := Apply(l, StartPrune(day));
    SameCounted(l, l');
    forall r | r in log ensures Needed(l', r) ==> Needed(l, r) {
    }
  }

  lemma DeleteRowsKeeps(log: set<LogItem>, l: Ledger, lost: set<Id>, last: bool)
    requires Safe(log, l) && Enabled(log, l, DeleteRows(lost, last))
    ensures Safe(log, Apply(l, DeleteRows(lost, last)))
  {
    var l' := Apply(l, DeleteRows(lost, last));
    SameCounted(l, l');
    forall r | r in log && Needed(l', r) ensures Holds(l'.rows, r) && !AtRisk(l', r) {
      assert Needed(l, r);
      if r.id in lost {
        Cst.DayBounds(r.createdAt, Cst.DayOf(r.createdAt));
        assert Doomed(l, Cst.DayOf(r.createdAt));
        assert AtRisk(l, r);
      }
    }
  }

  lemma DeleteMarksKeeps(log: set<LogItem>, l: Ledger)
    requires Safe(log, l) && Enabled(log, l, DeleteMarks)
    ensures Safe(log, Apply(l, DeleteMarks))
  {
    var l' := Apply(l, DeleteMarks);
    SameCounted(l, l');
    forall r | r in log ensures Needed(l', r) ==> Needed(l, r) {
    }
  }

  lemma FailIsExact(log: set<LogItem>, l: Ledger)
    requires Safe(log, l) && Enabled(log, l, FailPrune)
    ensures Safe(log, Apply(l, FailPrune)) <==> Harmless(log, l, FailPrune)
  {
    var l' := Apply(l, FailPrune);
    SameCounted(l, l');
    forall r | r in log
      ensures Needed(l', r) <==> Needed(l, r) || (Doomed(l, Cst.DayOf(r.createdAt)) && Promised(l.marks, r))
    {
    }
  }

  /** A step keeps a state safe if and only if it is harmless. */
  lemma StepIsExact(log: set<LogItem>, l: Ledger, ev: Event)
    requires Safe(log, l) && Enabled(log, l, ev)
    ensures Safe(log, Apply(l, ev)) <==> Harmless(log, l, ev)
  {
    match ev {
      case Begin(day, end, now) => BeginIsExact(log, l, day, end, now);
      case Store(items) => StoreIsExact(log, l, items);
      case Mark => MarkKeeps(log, l);
      case Skip => SkipKeeps(log, l);
      case Abort => AbortKeeps(log, l);
      case StartPrune(day) => StartIsExact(log, l, day);
      case DeleteRows(lost, last) => DeleteRowsKeeps(log, l, lost, last);
      case DeleteMarks => DeleteMarksKeeps(log, l);
      case FailPrune => FailIsExact(log, l);
    }
  }

  /** Careful steps are harmless: syncs of days from the cut-off on do not mind a prune. */
  lemma CarefulIsHarmless(log: set<LogItem>, l: Ledger, ev: Event)
    requires Safe(log, l) && Enabled(log, l, ev) && Careful(l, ev)
    ensures Harmless(log, l, ev)
  {
    match ev {
      case Begin(day, end, now) => BeginShape(log, l, day, end, now);
      case Store(items) => CarefulStore(log, l, items);
      case _ =>
    }
  }

  lemma CarefulStore(log: set<LogItem>, l: Ledger, items: seq<LogItem>)
    requires Safe(log, l) && Enabled(log, l, Store(items)) && Careful(l, Store(items))
    ensures Harmless(log, l, Store(items))
  {
    var l' := Apply(l, Store(items));
    forall r: LogItem, i: nat | Counted(l', i, r) ensures !Doomed(l, Cst.DayOf(r.createdAt)) {
      assert l.pending[0].day <= l.pending[i].day;
    }
  }

  // ---------------------------------------------------------------- histories

  ghost function Run(l: Ledger, evs: seq<Event>): Ledger
    decreases |evs|
  {
    if evs == [] then l else Run(Apply(l, evs[0]), evs[1..])
  }

  ghost predicate Legal(log: set<LogItem>, l: Ledger, evs: seq<Event>)
    decreases |evs|
  {
    evs == [] || (Enabled(log, l, evs[0]) && Legal(log, Apply(l, evs[0]), evs[1..]))
  }

  ghost predicate AllHarmless(log: set<LogItem>, l: Ledger, evs: seq<Event>)
    decreases |evs|
  {
    evs == [] || (Harmless(log, l, evs[0]) && AllHarmless(log, Apply(l, evs[0]), evs[1..]))
  }

  ghost predicate AllCareful(l: Ledger, evs: seq<Event>)
    decreases |evs|
  {
    evs == [] || (Careful(l, evs[0]) && AllCareful(Apply(l, evs[0]), evs[1..]))
  }

  /** Watermark soundness over all histories: after any sequence of harmless steps of syncs
      that succeed, fail, are cancelled or come up short anywhere, and of prunes that run
      between and beside them, every marked day has the rows its watermark promises, but for
      the days whose watermarks a prune under way is about to delete. */
  lemma {:induction false} HistoryIsSound(log: set<LogItem>, l: Ledger, evs: seq<Event>)
    requires Safe(log, l) && Legal(log, l, evs) && AllHarmless(log, l, evs)
    ensures Safe(log, Run(l, evs)) && Honest(log, Run(l, evs))
    ensures Run(l, evs).prune.None? ==> Sound(Run(l, evs).rows, Run(l, evs).marks, log)
    decreases |evs|
  {
    if evs == [] {
      SafeIsHonest(log, l);
    } else {
      StepIsExact(log, l, evs[0]);
      HistoryIsSound(log, Apply(l, evs[0]), evs[1..]);
    }
  }

  /** In particular after any history in which prunes and syncs keep out of each other's days
      and no prune fails. */
  lemma {:induction false} CarefulHistoryIsSound(log: set<LogItem>, l: Ledger, evs: seq<Event>)
    requires Safe(log, l) && Legal(log, l, evs) && AllCareful(l, evs)
    ensures Safe(log, Run(l, evs)) && Honest(log, Run(l, evs))
    ensures Run(l, evs).prune.None? ==> Sound(Run(l, evs).rows, Run(l, evs).marks, log)
    decreases |evs|
  {
    if evs == [] {
      SafeIsHonest(log, l);
    } else {
      CarefulIsHarmless(log, l, evs[0]);
      StepIsExact(log, l, evs[0]);
      CarefulHistoryIsSound(log, Apply(l, evs[0]), evs[1..]);
    }
  }

  ghost predicate NoDeletion(evs: seq<Event>) {
    forall ev :: ev in evs ==> !Deletes(ev)
  }

  /** The sync and the prune under way go on, but no prune begins or fails, and no sync plans or
      stores while a prune is under way. */
  ghost predicate Quiet(l: Ledger, ev: Event) {
    match ev
    case Begin(_, _, _) => l.prune.None?
    case Store(_) => l.prune.None?
    case StartPrune(_) => false
    case FailPrune => false
    case _ => true
  }

  ghost predicate AllQuiet(l: Ledger, evs: seq<Event>)
    decreases |evs|
  {
    evs == [] || (Quiet(l, evs[0]) && AllQuiet(Apply(l, evs[0]), evs[1..]))
  }

  lemma {:induction false} QuietIsHarmless(log: set<LogItem>, l: Ledger, evs: seq<Event>)
    requires AllQuiet(l, evs)
    ensures AllHarmless(log, l, evs)
    decreases |evs|
  {
    if evs != [] {
      QuietIsHarmless(log, Apply(l, evs[0]), evs[1..]);
    }
  }

  lemma {:induction false} NoDeletionIsQuiet(l: Ledger, evs: seq<Event>)
    requires NoDeletion(evs) && l.prune.None?
    ensures AllQuiet(l, evs) && Run(l, evs).prune.None?
    decreases |evs|
  {
    if evs != [] {
      assert evs[0] in evs;
      NoDeletionIsQuiet(Apply(l, evs[0]), evs[1..]);
    }
  }

  lemma RunCons(log: set<LogItem>, l: Ledger, ev: Event, rest: seq<Event>)
    ensures Run(l, [ev] + rest) == Run(Apply(l, ev), rest)
    ensures Legal(log, l, [ev] + rest) <==> Enabled(log, l, ev) && Legal(log, Apply(l, ev), rest)
    ensures AllQuiet(l, [ev] + rest) <==> Quiet(l, ev) && AllQuiet(Apply(l, ev), rest)
    ensures NoDeletion([ev] + rest) <==> !Deletes(ev) && NoDeletion(rest)
  {
    assert ([ev] + rest)[1..] == rest;
    assert forall e :: e in [ev] + rest <==> e == ev || e in rest;
  }

  lemma RunTwo(log: set<LogItem>, l: Ledger, a: Event, b: Event)
    ensures Run(l, [a, b]) == Apply(Apply(l, a), b)
    ensures Legal(log, l, [a, b]) <==> Enabled(log, l, a) && Enabled(log, Apply(l, a), b)
    ensures NoDeletion([a, b]) <==> !Deletes(a) && !Deletes(b)
  {
    assert [a] + [b] == [a, b] && [b] + [] == [b];
    RunCons(log, l, a, [b]);
    RunCons(log, Apply(l, a), b, []);
  }

  lemma {:induction false} RunConcat(log: set<LogItem>, l: Ledger, a: seq<Event>, b: seq<Event>)
    ensures Run(l, a + b) == Run(Run(l, a), b)
    ensures Legal(log, l, a + b) <==> Legal(log, l, a) && Legal(log, Run(l, a), b)
    ensures NoDeletion(a + b) <==> NoDeletion(a) && NoDeletion(b)
    decreases |a|
  {
    if a == [] {
      assert a + b == b;
    } else {
      assert (a + b)[0] == a[0] && (a + b)[1..] == a[1..] + b;
      RunConcat(log, Apply(l, a[0]), a[1..], b);
    }
    assert forall ev :: ev in a + b <==> ev in a || ev in b;
  }

  // ---------------------------------------------------------------- exactness

  /** A missing row that the first pending day counts on is missing when the day is marked. */
  lemma CompletesUnsound(log: set<LogItem>, l: Ledger, r: LogItem) returns (evs: seq<Event>)
    requires Shape(log, l) && l.prune.None? && r in log && Counted(l, 0, r) && !Holds(l.rows, r)
    ensures Legal(log, l, evs) && NoDeletion(evs)
    ensures !Sound(Run(l, evs).rows, Run(l, evs).marks, log)
  {
    var t := l.pending[0];
    var window := Matching(log, t.s, t.e, "") - {r};
    var items := Ordered(window);
    OrderedLists(window);
    UpsertFromLog(l.rows, items, log);
    var l1 := Apply(l, Store(items));
    var l2 := Apply(l1, Mark);
    evs := [Store(items), Mark];
    RunTwo(log, l, Store(items), Mark);
    assert !Covered(l2.rows, log, t.day, l2.marks[t.day]) by {
      assert Promises(l2.marks[t.day], r) && !Holds(l2.rows, r);
    }
  }

  /** ... and so it is for every later pending day, once the days before it are skipped. */
  lemma {:induction false} LaterUnsound(log: set<LogItem>, l: Ledger, i: nat, r: LogItem) returns (evs: seq<Event>)
    requires Shape(log, l) && l.prune.None? && r in log && Counted(l, i, r) && !Holds(l.rows, r)
    ensures Legal(log, l, evs) && NoDeletion(evs)
    ensures !Sound(Run(l, evs).rows, Run(l, evs).marks, log)
    decreases i
  {
    if i == 0 {
      evs := CompletesUnsound(log, l, r);
    } else {
      var l' := Apply(l, Skip);
      assert l'.pending[i - 1] == l.pending[i] && Counted(l', i - 1, r);
      var rest := LaterUnsound(log, l', i - 1, r);
      evs := [Skip] + rest;
      RunCons(log, l, Skip, rest);
    }
  }

  /** What the prune under way will have left, and the steps that complete it. */
  ghost function Completion(l: Ledger): seq<Event> {
    if l.prune.None? then []
    else if l.prune.value.cleared then [DeleteMarks]
    else [DeleteRows(set id | id in l.rows && Old(l, id), true), DeleteMarks]
  }

  lemma CompletionRuns(log: set<LogItem>, l: Ledger, rest: seq<Event>)
    ensures Run(l, Completion(l) + rest) == Run(Run(l, Completion(l)), rest)
    ensures Legal(log, Run(l, Completion(l)), rest) ==> Legal(log, l, Completion(l) + rest)
    ensures AllQuiet(Run(l, Completion(l)), rest) ==> AllQuiet(l, Completion(l) + rest)
  {
    var evs := Completion(l);
    if l.prune.None? {
      assert evs + rest == rest;
    } else if l.prune.value.cleared {
      assert [DeleteMarks] + [] == evs;
      RunCons(log, l, DeleteMarks, []);
      RunCons(log, l, DeleteMarks, rest);
    } else {
      var l1 := Apply(l, evs[0]);
      RunTwo(log, l, evs[0], DeleteMarks);
      assert evs + rest == [evs[0]] + ([DeleteMarks] + rest);
      RunCons(log, l, evs[0], [DeleteMarks] + rest);
      RunCons(log, l1, DeleteMarks, rest);
    }
  }

  /** A row at risk, or missing and counted on, is missing when the prune is complete. */
  lemma CompletionLoses(log: set<LogItem>, l: Ledger, r: LogItem)
    requires Shape(log, l) && r in log && CountedOn(l, r) && (!Holds(l.rows, r) || AtRisk(l, r))
    ensures var l' := Run(l, Completion(l));
      Shape(log, l') && l'.prune.None? && CountedOn(l', r) && !Holds(l'.rows, r)
  {
    var l', evs := Run(l, Completion(l)), Completion(l);
    if l.prune.Some? {
      if l.prune.value.cleared {
        assert [DeleteMarks] + [] == evs;
        RunCons(log, l, DeleteMarks, []);
      } else {
        RunTwo(log, l, evs[0], DeleteMarks);
        Cst.DayBounds(r.createdAt, Cst.DayOf(r.createdAt));
      }
    }
    SameCounted(l, l');
  }

  /** From a state that is not safe a quiet way leads to a broken promise. */
  lemma UnsafeBreaks(log: set<LogItem>, l: Ledger) returns (evs: seq<Event>)
    requires Shape(log, l) && !Safe(log, l)
    ensures Legal(log, l, evs) && AllQuiet(l, evs) && !Honest(log, Run(l, evs))
  {
    var r :| r in log && Needed(l, r) && (!Holds(l.rows, r) || AtRisk(l, r));
    evs := [];
    if CountedOn(l, r) {
      var l' := Run(l, Completion(l));
      CompletionLoses(log, l, r);
      var i: nat :| Counted(l', i, r);
      var rest := LaterUnsound(log, l', i, r);
      NoDeletionIsQuiet(l', rest);
      CompletionRuns(log, l, rest);
      evs := Completion(l) + rest;
    } else {
      var d := Cst.DayOf(r.createdAt);
      assert d in l.marks && !Doomed(l, d) && !Covered(l.rows, log, d, l.marks[d]);
    }
  }

  /** Safe is exact: a state is safe if and only if every quiet way to go on from it leads to
      honest states only. */
  lemma SafeIsExact(log: set<LogItem>, l: Ledger)
    requires Shape(log, l)
    ensures Safe(log, l) <==> forall evs :: Legal(log, l, evs) && AllQuiet(l, evs) ==> Honest(log, Run(l, evs))
  {
    if Safe(log, l) {
      forall evs | Legal(log, l, evs) && AllQuiet(l, evs) ensures Honest(log, Run(l, evs)) {
        QuietIsHarmless(log, l, evs);
        HistoryIsSound(log, l, evs);
      }
    } else {
      var evs := UnsafeBreaks(log, l);
    }
  }

  lemma StepShape(log: set<LogItem>, l: Ledger, ev: Event)
    requires Shape(log, l) && Enabled(log, l, ev)
    ensures Shape(log, Apply(l, ev))
  {
    match ev {
      case Begin(day, end, now) => BeginShape(log, l, day, end, now);
      case Store(items) => StoreShape(log, l, items);
      case _ =>
    }
  }

  /** What a sync may do beside a prune and a prune beside a sync: from a safe state, every quiet
      way to go on after a step stays honest if and only if the step is harmless. */
  lemma HarmIsExact(log: set<LogItem>, l: Ledger, ev: Event)
    requires Safe(log, l) && Enabled(log, l, ev)
    ensures var l' := Apply(l, ev);
      Harmless(log, l, ev) <==>
        forall evs :: Legal(log, l', evs) && AllQuiet(l', evs) ==> Honest(log, Run(l', evs))
  {
    StepIsExact(log, l, ev);
    StepShape(log, l, ev);
    SafeIsExact(log, Apply(l, ev));
  }

  // ---------------------------------------------------------------- prunes during a sync

  /** The steps of a prune that nothing interrupts. */
  ghost function WholePrune(l: Ledger, cut: int): seq<Event> {
    [StartPrune(cut)] + Completion(Apply(l, StartPrune(cut)))
  }

  /** Such a prune keeps exactly the rows and the watermarks from the cut-off on. */
  lemma WholePruneIs(log: set<LogItem>, l: Ledger, cut: int)
    requires l.prune.None?
    ensures Legal(log, l, WholePrune(l, cut))
    ensures Run(l, WholePrune(l, cut)) ==
            l.(rows := RowsFrom(l.rows, Cst.DayStart(cut)), marks := MarksFrom(l.marks, cut))
  {
    var l1 := Apply(l, StartPrune(cut));
    var evs := Completion(l1);
    RunCons(log, l, StartPrune(cut), evs);
    RunTwo(log, l1, evs[0], DeleteMarks);
    assert Minus(l.rows, evs[0].lost) == RowsFrom(l.rows, Cst.DayStart(cut));
  }

  /** In a safe state in which the first pending day is fetched and will promise some row, a
      prune right before the watermark update keeps the store sound if and only if its
      cut-off is not after that day. */
  lemma PruneDuringSync(log: set<LogItem>, l: Ledger, cut: int, r: LogItem)
    requires Safe(log, l) && l.prune.None? && Enabled(log, l, Mark)
    requires r in log && Cst.DayOf(r.createdAt) == l.pending[0].day && Promises(Until(l.pending[0], l.now), r)
    ensures var l' := Apply(Run(l, WholePrune(l, cut)), Mark);
      Sound(l'.rows, l'.marks, log) <==> cut <= l.pending[0].day
  {
    var t, l1 := l.pending[0], Run(l, WholePrune(l, cut));
    var l2 := Apply(l1, Mark);
    WholePruneIs(log, l, cut);
    PromiseIsSettled(t, l.now, r);
    assert Counted(l, 0, r);
    if cut <= t.day {
      WholePruneKeeps(log, l, cut);
      MarkKeeps(log, l1);
      SafeIsHonest(log, l2);
    } else {
      Cst.DayBounds(r.createdAt, t.day);
      assert !Covered(l2.rows, log, t.day, l2.marks[t.day]) by {
        assert Promises(l2.marks[t.day], r) && !Holds(l2.rows, r);
      }
    }
  }

  lemma WholePruneKeeps(log: set<LogItem>, l: Ledger, cut: int)
    requires Safe(log, l) && l.prune.None? && Careful(l, StartPrune(cut))
    ensures Safe(log, Run(l, WholePrune(l, cut)))
  {
    var l1 := Apply(l, StartPrune(cut));
    var evs := Completion(l1);
    CarefulIsHarmless(log, l, StartPrune(cut));
    StartIsExact(log, l, cut);
    RunCons(log, l, StartPrune(cut), evs);
    RunTwo(log, l1, evs[0], DeleteMarks);
    DeleteRowsKeeps(log, l1, evs[0].lost, true);
    DeleteMarksKeeps(log, Apply(l1, evs[0]));
  }

  // ---------------------------------------------------------------- prunes that fail half-way

  /** What is left when `Local.Prune` fails is what some half prune leaves. */
  lemma FailedPruneIsHalfPrune(before: Table, after: Table, day: int) returns (lost: set<Id>)
    requires forall id :: id in after ==> id in before && after[id] == before[id]
    requires forall id :: id in before && before[id].createdAt >= Cst.DayStart(day) ==> id in after
    ensures after == Minus(before, lost)
    ensures forall id :: id in lost ==> id in before && before[id].createdAt < Cst.DayStart(day)
  {
    lost := before.Keys - after.Keys;
    assert after.Keys == Minus(before, lost).Keys;
  }

  /** A sound store stays sound under the loss of rows if and only if no watermark promises
      any of them. */
  lemma HalfPruneIsSound(rows: Table, marks: Marks, log: set<LogItem>, lost: set<Id>)
    requires Sound(rows, marks, log)
    ensures Sound(Minus(rows, lost), marks, log) <==>
      forall id :: id in lost && id in rows ==> !Promised(marks, rows[id])
  {
    var rows' := Minus(rows, lost);
    if forall id :: id in lost && id in rows ==> !Promised(marks, rows[id]) {
      forall d | d in marks ensures Covered(rows', log, d, marks[d]) {
        forall r | r in log && Cst.DayOf(r.createdAt) == d && Promises(marks[d], r) ensures Holds(rows', r) {
          assert Covered(rows, log, d, marks[d]) && Holds(rows, r);
        }
      }
    }
    if Sound(rows', marks, log) {
      forall id | id in lost && id in rows ensures !Promised(marks, rows[id]) {
        var r := rows[id];
        assert r in log && r.id == id && !Holds(rows', r);
        var d := Cst.DayOf(r.createdAt);
        assert d in marks ==> Covered(rows', log, d, marks[d]);
      }
    }
  }

  /** The watermarks promise no second before a day: none of an earlier day is complete, nor
      far enough to promise the day's first second. */
  ghost predicate PromiseNothingBefore(marks: Marks, day: int) {
    forall d :: d in marks && d < day ==> marks[d] < LastSecond(d) && marks[d] - SYNC_OVERLAP <= Cst.DayStart(d)
  }

  /** All rows before the cut-off are deleted and no watermark is: with the log in view, this
      is sound if and only if no deleted row is promised. */
  lemma HalfPruneOfAll(rows: Table, marks: Marks, log: set<LogItem>, day: int)
    requires Sound(rows, marks, log)
    ensures Sound(RowsFrom(rows, Cst.DayStart(day)), marks, log) <==>
      forall r :: r in log && Cst.DayOf(r.createdAt) < day ==> !Promised(marks, r)
  {
    var rows' := RowsFrom(rows, Cst.DayStart(day));
    forall r | r in log ensures Holds(rows', r) <==> Holds(rows, r) && Cst.DayOf(r.createdAt) >= day {
      Cst.DayBounds(r.createdAt, Cst.DayOf(r.createdAt));
    }
    if forall r :: r in log && Cst.DayOf(r.createdAt) < day ==> !Promised(marks, r) {
      forall d | d in marks ensures Covered(rows', log, d, marks[d]) {
        assert Covered(rows, log, d, marks[d]);
      }
    }
    if Sound(rows', marks, log) {
      forall r | r in log && Cst.DayOf(r.createdAt) < day ensures !Promised(marks, r) {
        var d := Cst.DayOf(r.createdAt);
        assert d in marks ==> Covered(rows', log, d, marks[d]);
      }
    }
  }

  /** With the watermarks alone in view, it is harmless for every store and log if and only
      if they promise nothing before the cut-off. */
  lemma HalfPruneForEveryStore(marks: Marks, day: int)
    ensures PromiseNothingBefore(marks, day) <==>
      forall rows: Table, log: set<LogItem> ::
        Sound(rows, marks, log) ==> Sound(RowsFrom(rows, Cst.DayStart(day)), marks, log)
  {
    if PromiseNothingBefore(marks, day) {
      forall rows: Table, log: set<LogItem> | Sound(rows, marks, log)
        ensures Sound(RowsFrom(rows, Cst.DayStart(day)), marks, log) {
        forall r | r in log && Cst.DayOf(r.createdAt) < day ensures !Promised(marks, r) {
          Cst.DayBounds(r.createdAt, Cst.DayOf(r.createdAt));
        }
        HalfPruneOfAll(rows, marks, log, day);
      }
    } else {
      var d :| d in marks && d < day && !(marks[d] < LastSecond(d) && marks[d] - SYNC_OVERLAP <= Cst.DayStart(d));
      var r := LogItem(1, Cst.DayStart(d), "", 0);
      var rows: Table, log := map[r.id := r], {r};
      Cst.DayBounds(r.createdAt, d);
      assert Holds(rows, r) && Sound(rows, marks, log);
      HalfPruneOfAll(rows, marks, log, day);
      assert Promised(marks, r);
    }
  }

  // ---------------------------------------------------------------- such histories happen

  const EMPTY := Ledger(map[], map[], 0, [], {}, None)

  /** A first sync of one day stores the day's only row. */
  ghost function FirstSync(day: int, r: LogItem, now: int): seq<Event> {
    [Begin(day, LastSecond(day), now), Store([r])]
  }

  /** The state it leads to. */
  lemma OneRowStored(day: int, r: LogItem, now: int) returns (l: Ledger)
    requires day >= 1 && r.id != 0 && Cst.DayOf(r.createdAt) == day && now >= Cst.DayStart(day)
    ensures Legal({r}, EMPTY, FirstSync(day, r, now)) && l == Run(EMPTY, FirstSync(day, r, now))
    ensures Safe({r}, l) && Enabled({r}, l, Mark)
    ensures l == Ledger(map[r.id := r], map[], now, [Planned(Cst.DayStart(day), 0, Min(LastSecond(day), now))], {r},
                        None)
    ensures l.pending[0].day == day
  {
    var begin, store := Begin(day, LastSecond(day), now), Store([r]);
    Cst.DayBounds(r.createdAt, day);
    PlanOne(map[], day, Min(LastSecond(day), now));
    IdleIsSafe({r}, EMPTY);
    BeginIsExact({r}, EMPTY, day, LastSecond(day), now);
    var l1 := Apply(EMPTY, begin);
    StoreIsExact({r}, l1, [r]);
    l := Apply(l1, store);
    assert [r][..0] == [] && UpsertAll(map[], []) == map[];
    assert l.stored == {r};
    RunTwo({r}, EMPTY, begin, store);
  }

  /** The plan of one incomplete day. */
  lemma PlanOne(marks: Marks, day: int, end: int)
    requires day >= 1 && Cst.DayStart(day) <= end <= LastSecond(day) && MarkOf(marks, day) < LastSecond(day)
    ensures PlanFrom(marks, Cst.DayStart(day), end).todo == [Planned(Cst.DayStart(day), MarkOf(marks, day), end)]
    ensures Planned(Cst.DayStart(day), MarkOf(marks, day), end).day == day
  {
    PlanStep(marks, day, end);
    assert PlanFrom(marks, Cst.DayStart(day + 1), end).todo == [];
  }

  /** The input that breaks the promise: a first sync stores the only row of a day, a prune
      with a later cut-off runs, and the day is marked complete without its row.  With a
      cut-off not after the day nothing happens. */
  lemma LatePrune(day: int, cut: int, r: LogItem, now: int)
    requires day >= 1 && r.id != 0
    requires Cst.DayOf(r.createdAt) == day && now >= LastSecond(day) + SETTLE_SECS
    ensures var l := Run(EMPTY, FirstSync(day, r, now));
      var after := WholePrune(l, cut) + [Mark];
      && Legal({r}, EMPTY, FirstSync(day, r, now)) && Legal({r}, l, after)
      && (Sound(Run(l, after).rows, Run(l, after).marks, {r}) <==> cut <= day)
  {
    var l := OneRowStored(day, r, now);
    var l1 := Run(l, WholePrune(l, cut));
    WholePruneIs({r}, l, cut);
    RunConcat({r}, l, WholePrune(l, cut), [Mark]);
    assert [Mark] + [] == [Mark];
    RunCons({r}, l1, Mark, []);
    Cst.DayBounds(r.createdAt, day);
    PruneDuringSync({r}, l, cut, r);
  }

  /** The same day, completely synced, and then a prune that deletes the row and fails. */
  lemma LateHalfPrune(day: int, r: LogItem, now: int)
    requires day >= 1 && r.id != 0
    requires Cst.DayOf(r.createdAt) == day && now >= LastSecond(day) + SETTLE_SECS
    ensures var l := Run(EMPTY, FirstSync(day, r, now));
      var after := [Mark, StartPrune(day + 1)] + [DeleteRows({r.id}, true), FailPrune];
      && Legal({r}, EMPTY, FirstSync(day, r, now)) && Legal({r}, l, after)
      && !Sound(Run(l, after).rows, Run(l, after).marks, {r})
  {
    var l := OneRowStored(day, r, now);
    var l1 := Apply(Apply(l, Mark), StartPrune(day + 1));
    var delete := DeleteRows({r.id}, true);
    Cst.DayBounds(r.createdAt, day);
    RunTwo({r}, l, Mark, StartPrune(day + 1));
    RunTwo({r}, l1, delete, FailPrune);
    RunConcat({r}, l, [Mark, StartPrune(day + 1)], [delete, FailPrune]);
    var l2 := Apply(Apply(l1, delete), FailPrune);
    assert Promises(l2.marks[day], r) && !Holds(l2.rows, r);
    assert !Covered(l2.rows, {r}, day, l2.marks[day]);
  }

  /** The state in which the row of a day synced in part is deleted, its watermark not yet, and
      a second sync begins. */
  lemma PlannedMidPrune(day: int, cut: int, r: LogItem, first: int, second: int) returns (l: Ledger)
    requires day >= 1 && r.id != 0 && Cst.DayOf(r.createdAt) == day < cut
    requires r.createdAt + SYNC_OVERLAP < first < LastSecond(day) && second >= LastSecond(day) + SETTLE_SECS
    ensures var synced := Run(EMPTY, FirstSync(day, r, first));
      var after := [Mark, StartPrune(cut)] + [DeleteRows({r.id}, true), Begin(day, LastSecond(day), second)];
      && Legal({r}, EMPTY, FirstSync(day, r, first)) && Legal({r}, synced, after) && l == Run(synced, after)
    ensures l == Ledger(map[], map[day := first], second, [Planned(Cst.DayStart(day), first, LastSecond(day))], {},
                        Some(Pruning(cut, true)))
    ensures l.pending[0].day == day
  {
    var l0 := OneRowStored(day, r, first);
    var delete, begin := DeleteRows({r.id}, true), Begin(day, LastSecond(day), second);
    Cst.DayBounds(r.createdAt, day);
    var l1 := Apply(Apply(l0, Mark), StartPrune(cut));
    assert l1.marks == map[day := first];
    PlanOne(l1.marks, day, LastSecond(day));
    l := Apply(Apply(l1, delete), begin);
    RunTwo({r}, l0, Mark, StartPrune(cut));
    RunTwo({r}, l1, delete, begin);
    RunConcat({r}, l0, [Mark, StartPrune(cut)], [delete, begin]);
  }

  /** A sync that begins between the two deletions of a prune: it still reads the watermark,
      fetches the rest of the day only, and marks it complete after the watermarks are gone. */
  lemma SyncDuringPrune(day: int, cut: int, r: LogItem, first: int, second: int)
    requires day >= 1 && r.id != 0 && Cst.DayOf(r.createdAt) == day < cut
    requires r.createdAt + SYNC_OVERLAP < first < LastSecond(day) && second >= LastSecond(day) + SETTLE_SECS
    ensures var synced := Run(EMPTY, FirstSync(day, r, first));
      var prune := [Mark, StartPrune(cut)] + [DeleteRows({r.id}, true), Begin(day, LastSecond(day), second)];
      var evs := prune + [DeleteMarks, Mark];
      && Legal({r}, EMPTY, FirstSync(day, r, first)) && Legal({r}, synced, evs)
      && !Sound(Run(synced, evs).rows, Run(synced, evs).marks, {r})
  {
    var synced := Run(EMPTY, FirstSync(day, r, first));
    var prune := [Mark, StartPrune(cut)] + [DeleteRows({r.id}, true), Begin(day, LastSecond(day), second)];
    var l := PlannedMidPrune(day, cut, r, first, second);
    var l' := Apply(Apply(l, DeleteMarks), Mark);
    RunTwo({r}, l, DeleteMarks, Mark);
    RunConcat({r}, synced, prune, [DeleteMarks, Mark]);
    Cst.DayBounds(r.createdAt, day);
    assert l'.marks == map[day := LastSecond(day)];
    assert Promises(l'.marks[day], r) && !Holds(l'.rows, r);
    assert !Covered(l'.rows, {r}, day, l'.marks[day]);
  }
}
