/** The local detail store (backend/internal/detail/local.go) over two abstract tables:
    usage_logs, keyed by log id, and usage_log_days, from calendar day to watermark. */
module LocalStore {
  import opened Basics
  import opened LogRows

  const UPSERT_BATCH := 200
  const PRUNE_BATCH := 20000

  type Table = map<Id, LogItem>
  type Marks = map<int, int>

  /** Writing items in order by log id, a later item overwriting an earlier one; items
      without an id are not written. */
  function UpsertAll(table: Table, items: seq<LogItem>): Table {
    if items == [] then table
    else
      var t, it := UpsertAll(table, items[..|items| - 1]), items[|items| - 1];
      if it.id == 0 then t else t[it.id := it]
  }

  /** Item `k` is the last one with this id. */
  ghost predicate LastWith(items: seq<LogItem>, id: Id, k: nat) {
    k < |items| && items[k].id == id && forall j :: k < j < |items| ==> items[j].id != id
  }

  /** Of several items with one id the last one stays. */
  lemma {:induction false} LastItemWins(table: Table, items: seq<LogItem>, id: Id, k: nat)
    requires id != 0 && LastWith(items, id, k)
    ensures id in UpsertAll(table, items) && UpsertAll(table, items)[id] == items[k]
    decreases |items|
  {
    var front, last := items[..|items| - 1], items[|items| - 1];
    if k < |front| {
      assert LastWith(front, id, k);
      LastItemWins(table, front, id, k);
    }
  }

  /** Entries of the table that no item names are untouched. */
  lemma {:induction false} OthersStay(table: Table, items: seq<LogItem>, id: Id)
    requires id == 0 || forall it :: it in items ==> it.id != id
    ensures id in UpsertAll(table, items) <==> id in table
    ensures id in table ==> UpsertAll(table, items)[id] == table[id]
  {
    if items != [] {
      OthersStay(table, items[..|items| - 1], id);
    }
  }

  lemma {:induction false} UpsertConcat(table: Table, a: seq<LogItem>, b: seq<LogItem>)
    ensures UpsertAll(table, a + b) == UpsertAll(UpsertAll(table, a), b)
  {
    if b == [] {
      assert a + b == a;
    } else {
      UpsertConcat(table, a, b[..|b| - 1]);
      assert (a + b)[..|a + b| - 1] == a + b[..|b| - 1];
    }
  }

  lemma {:induction false} UpsertSkipsZero(table: Table, items: seq<LogItem>, kept: seq<LogItem>, it: LogItem)
    requires it.id == 0 && UpsertAll(table, kept) == UpsertAll(table, items)
    ensures UpsertAll(table, kept) == UpsertAll(table, items + [it])
  {
    assert (items + [it])[..|items|] == items;
  }

  lemma {:induction false} UpsertSnoc(table: Table, items: seq<LogItem>, kept: seq<LogItem>, it: LogItem)
    requires it.id != 0 && UpsertAll(table, kept) == UpsertAll(table, items)
    ensures UpsertAll(table, kept + [it]) == UpsertAll(table, items + [it])
  {
    assert (items + [it])[..|items|] == items;
    assert (kept + [it])[..|kept|] == kept;
  }

  /** Every row is stored under its own id (the primary key). */
  ghost predicate Keyed(table: Table) {
    forall id :: id in table ==> table[id].id == id
  }

  lemma {:induction false} UpsertKeyed(table: Table, items: seq<LogItem>)
    requires Keyed(table)
    ensures Keyed(UpsertAll(table, items))
  {
    if items != [] {
      UpsertKeyed(table, items[..|items| - 1]);
    }
  }

  /** Every row of the table is one of `log`, stored under its own id. */
  ghost predicate Within(table: Table, log: set<LogItem>) {
    forall id :: id in table ==> table[id] in log && table[id].id == id
  }

  ghost predicate Holds(table: Table, r: LogItem) {
    r.id in table && table[r.id] == r
  }

  /** Upserting rows of a log with unique ids loses nothing, adds exactly those rows,
      and repeats are harmless. */
  lemma {:induction false} UpsertFromLog(table: Table, items: seq<LogItem>, log: set<LogItem>)
    requires Within(table, log) && UniqueIds(log)
    requires forall r :: r in items ==> r in log && r.id != 0
    ensures Within(UpsertAll(table, items), log)
    ensures forall r :: Holds(UpsertAll(table, items), r) <==> Holds(table, r) || r in items
  {
    if items == [] {
    } else {
      var front, last := items[..|items| - 1], items[|items| - 1];
      assert items == front + [last];
      UpsertFromLog(table, front, log);
      var t := UpsertAll(table, front);
      forall r ensures Holds(UpsertAll(table, items), r) <==> Holds(table, r) || r in items {
        if r.id == last.id && Holds(t, r) {
          assert r in log;
        }
      }
    }
  }

  /** Repeating the same upsert changes nothing. */
  lemma UpsertIdempotent(table: Table, items: seq<LogItem>, log: set<LogItem>)
    requires Within(table, log) && UniqueIds(log)
    requires forall r :: r in items ==> r in log && r.id != 0
    ensures UpsertAll(UpsertAll(table, items), items) == UpsertAll(table, items)
  {
    var once := UpsertAll(table, items);
    UpsertFromLog(table, items, log);
    UpsertFromLog(once, items, log);
    var twice := UpsertAll(once, items);
    forall id | id in once ensures id in twice && twice[id] == once[id] {
      assert Holds(once, once[id]);
      assert Holds(twice, once[id]);
    }
    forall id | id in twice ensures id in once {
      assert Holds(twice, twice[id]);
      assert Holds(once, twice[id]);
    }
  }

  /** Whether some item of a batch has an id: only then a statement is sent. */
  predicate Sends(items: seq<LogItem>) {
    exists it :: it in items && it.id != 0
  }

  /** The items written when the batches from item `i` on are sent as statements `b`, `b` + 1
      and so on: all of them, or those before the first batch whose statement fails. */
  function Written(items: seq<LogItem>, ok: nat -> bool, i: nat, b: nat): nat
    requires i <= |items|
    decreases |items| - i
  {
    var j := Min(i + UPSERT_BATCH, |items|);
    if i == |items| then i
    else if !Sends(items[i..j]) then Written(items, ok, j, b)
    else if !ok(b) then i
    else Written(items, ok, j, b + 1)
  }

  /** Where batch number `k` begins. */
  function BatchStart(items: seq<LogItem>, k: nat): nat {
    Min(200 * k, |items|)
  }

  function Batch(items: seq<LogItem>, k: nat): seq<LogItem> {
    items[BatchStart(items, k)..BatchStart(items, k + 1)]
  }

  /** The statements sent for the first `k` batches: one for each that has an item with an id. */
  ghost function SentFor(items: seq<LogItem>, k: nat): nat {
    if k == 0 then 0 else SentFor(items, k - 1) + if Sends(Batch(items, k - 1)) then 1 else 0
  }

  /** The first `k` batches were written, and batch `k` is not there or its statement failed. */
  ghost predicate WrittenBatches(items: seq<LogItem>, ok: nat -> bool, from: nat, k: nat, written: nat) {
    && from <= k && written == BatchStart(items, k)
    && (forall b :: SentFor(items, from) <= b < SentFor(items, k) ==> ok(b))
    && (written < |items| ==> Sends(Batch(items, k)) && !ok(SentFor(items, k)))
  }

  lemma WrittenStep(items: seq<LogItem>, ok: nat -> bool, k: nat)
    requires BatchStart(items, k) < |items|
    ensures Written(items, ok, BatchStart(items, k), SentFor(items, k)) ==
      if Sends(Batch(items, k)) && !ok(SentFor(items, k)) then BatchStart(items, k)
      else Written(items, ok, BatchStart(items, k + 1), SentFor(items, k + 1))
    ensures SentFor(items, k + 1) == SentFor(items, k) + if Sends(Batch(items, k)) then 1 else 0
  {
  }

  lemma BatchWritten(items: seq<LogItem>, ok: nat -> bool, from: nat, k: nat, written: nat)
    requires WrittenBatches(items, ok, from + 1, k, written)
    requires SentFor(items, from + 1) == SentFor(items, from) + if Sends(Batch(items, from)) then 1 else 0
    requires Sends(Batch(items, from)) ==> ok(SentFor(items, from))
    ensures WrittenBatches(items, ok, from, k, written)
  {
  }

  /** What is written are the batches of 200 before the first one whose statement fails. */
  lemma {:induction false} WrittenIs(items: seq<LogItem>, ok: nat -> bool, from: nat) returns (k: nat)
    ensures WrittenBatches(items, ok, from, k, Written(items, ok, BatchStart(items, from), SentFor(items, from)))
    decreases |items| - BatchStart(items, from)
  {
    k := from;
    if BatchStart(items, from) < |items| {
      WrittenStep(items, ok, from);
      if !Sends(Batch(items, from)) || ok(SentFor(items, from)) {
        k := WrittenIs(items, ok, from + 1);
        BatchWritten(items, ok, from, k, Written(items, ok, BatchStart(items, from + 1), SentFor(items, from + 1)));
      }
    }
  }

  /** The rows of one INSERT statement: the items of the batch that have an id. */
  method Arguments(items: seq<LogItem>, i: nat, j: nat, ghost table: Table) returns (args: seq<LogItem>)
    requires i <= j <= |items|
    ensures UpsertAll(table, args) == UpsertAll(table, items[i..j])
    ensures |args| > 0 <==> Sends(items[i..j])
  {
    args := [];
    for k := i to j
      invariant UpsertAll(table, args) == UpsertAll(table, items[i..k])
      invariant |args| > 0 <==> Sends(items[i..k])
    {
      assert items[i..k + 1] == items[i..k] + [items[k]];
      if items[k].id == 0 {
        UpsertSkipsZero(table, items[i..k], args, items[k]);
        continue;
      }
      UpsertSnoc(table, items[i..k], args, items[k]);
      args := args + [items[k]];
    }
  }

  class Local {
    var rows: Table
    var marks: Marks

    constructor ()
      ensures rows == map[] && marks == map[]
    {
      rows, marks := map[], map[];
    }

    /** Writes in INSERT statements of 200 items; statement `b` succeeds iff `ok(b)`.  A
        failure keeps the statements already written. */
    method Upsert(items: seq<LogItem>, ok: nat -> bool) returns (success: bool, ghost written: nat)
      modifies `rows
      ensures written == Written(items, ok, 0, 0) <= |items|
      ensures rows == UpsertAll(old(rows), items[..written])
      ensures success <==> written == |items|
      ensures !success ==> exists b :: !ok(b)
    {
      var i, b := 0, 0;
      while i < |items|
        invariant 0 <= i <= |items|
        invariant Written(items, ok, i, b) == Written(items, ok, 0, 0)
        invariant rows == UpsertAll(old(rows), items[..i])
      {
        var j := Min(i + UPSERT_BATCH, |items|);
        var args := Arguments(items, i, j, rows);
        UpsertConcat(old(rows), items[..i], items[i..j]);
        assert items[..i] + items[i..j] == items[..j];
        if |args| > 0 {
          if !ok(b) {
            return false, i;
          }
          rows := UpsertAll(rows, args);
          b := b + 1;
        }
        i := j;
      }
      assert items[..|items|] == items;
      return true, |items|;
    }

    /** The watermarks of the days in [from, to]; other days are absent. */
    method DayState(from: int, to: int) returns (state: Marks)
      ensures forall d :: d in state <==> d in marks && from <= d <= to
      ensures forall d :: d in state ==> state[d] == marks[d]
    {
      state := map d | d in marks && from <= d <= to :: marks[d];
    }

    /** Raises the watermark of a day; it never goes down. */
    method MarkDay(day: int, until: int, ok: bool) returns (success: bool)
      modifies `marks
      ensures success == ok
      ensures marks == if ok then Raise(old(marks), day, until) else old(marks)
      ensures ok ==>
        && day in marks && marks[day] == (if day in old(marks) then Max(old(marks)[day], until) else until)
        && marks.Keys == old(marks).Keys + {day}
        && forall d :: d in old(marks) && d != day ==> marks[d] == old(marks)[d]
    {
      if !ok {
        return false;
      }
      if day in marks && marks[day] > until {
        return true;
      }
      marks := marks[day := until];
      return true;
    }

    /** Deletes the rows before `beforeTs` in batches; statement `b` succeeds iff `ok(b)`. */
    method DeleteRows(beforeTs: int, ok: nat -> bool) returns (success: bool, total: nat, sent: nat)
      modifies `rows
      ensures success ==> rows == RowsFrom(old(rows), beforeTs) && sent == total / PRUNE_BATCH + 1
      ensures forall id :: id in rows ==> id in old(rows) && rows[id] == old(rows)[id]
      ensures forall id :: id in old(rows) && old(rows)[id].createdAt >= beforeTs ==> id in rows
      ensures total == |old(rows)| - |rows|
      ensures (forall b :: 0 <= b < sent ==> ok(b)) && (!success ==> !ok(sent))
    {
      total, sent := 0, 0;
      while true
        invariant forall id :: id in rows ==> id in old(rows) && rows[id] == old(rows)[id]
        invariant forall id :: id in old(rows) && old(rows)[id].createdAt >= beforeTs ==> id in rows
        invariant total == |old(rows)| - |rows| == sent * PRUNE_BATCH && forall b :: 0 <= b < sent ==> ok(b)
        decreases |rows|
      {
        if !ok(sent) {
          return false, total, sent;
        }
        sent := sent + 1;
        var victims := set id | id in rows && rows[id].createdAt < beforeTs;
        var batch := Take(victims, PRUNE_BATCH);
        rows := Without(rows, batch);
        total := total + |batch|;
        if |batch| < PRUNE_BATCH {
          assert forall id :: id in rows ==> rows[id].createdAt >= beforeTs;
          KeptRows(old(rows), rows, beforeTs);
          return true, total, sent;
        }
      }
    }

    /** Deletes the rows before `beforeTs` in batches and then the watermarks before
        `beforeDay`; statement `b` succeeds iff `ok(b)`. */
    method Prune(beforeTs: int, beforeDay: int, ok: nat -> bool)
        returns (success: bool, total: nat, ghost sent: nat)
      modifies this
      ensures success ==> rows == RowsFrom(old(rows), beforeTs) && marks == MarksFrom(old(marks), beforeDay)
      ensures !success ==> marks == old(marks)
      ensures forall id :: id in rows ==> id in old(rows) && rows[id] == old(rows)[id]
      ensures forall id :: id in old(rows) && old(rows)[id].createdAt >= beforeTs ==> id in rows
      ensures total == |old(rows)| - |rows|
      // It stops at the first statement that fails, and else sends one for each full batch, one
      // for the rest, and one for the watermarks.
      ensures (forall b :: 0 <= b < sent ==> ok(b)) && (!success ==> !ok(sent))
      ensures success ==> sent == total / PRUNE_BATCH + 2
    {
      var n;
      success, total, n := DeleteRows(beforeTs, ok);
      sent := n;
      if success {
        if !ok(n) {
          return false, total, n;
        }
        marks := map d | d in marks && d >= beforeDay :: marks[d];
        sent := n + 1;
      }
    }
  }

  function Raise(marks: Marks, day: int, until: int): Marks {
    if day in marks && marks[day] > until then marks else marks[day := until]
  }

  ghost function RowsFrom(rows: Table, ts: int): Table {
    map id | id in rows && rows[id].createdAt >= ts :: rows[id]
  }

  ghost function MarksFrom(marks: Marks, day: int): Marks {
    map d | d in marks && d >= day :: marks[d]
  }

  lemma KeptRows(before: Table, after: Table, ts: int)
    requires forall id :: id in after ==> id in before && after[id] == before[id]
    requires forall id :: id in before && before[id].createdAt >= ts ==> id in after
    requires forall id :: id in after ==> after[id].createdAt >= ts
    ensures after == RowsFrom(before, ts)
  {
    assert after.Keys == RowsFrom(before, ts).Keys;
  }

  function Without(rows: Table, ids: set<Id>): (rest: Table)
    requires ids <= rows.Keys
    ensures |rest| == |rows| - |ids|
  {
    var rest := map id | id in rows && id !in ids :: rows[id];
    assert rest.Keys == rows.Keys - ids;
    assert |rest.Keys| == |rows.Keys| - |ids|;
    rest
  }

  /** Any `n` members of a set, or all of them (DELETE ... LIMIT n picks them freely). */
  method Take(s: set<Id>, n: nat) returns (t: set<Id>)
    ensures t <= s
    ensures |t| == if |s| < n then |s| else n
    ensures |s| <= n ==> t == s
  {
    t := {};
    var rest := s;
    while rest != {} && |t| < n
      invariant t !! rest && t + rest == s && |t| <= n
      decreases rest
    {
      var x := Pick(rest);
      t, rest := t + {x}, rest - {x};
    }
    assert |s| == |t| + |rest| by { assert s == t + rest; }
  }
}
