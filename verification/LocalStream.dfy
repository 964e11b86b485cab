/** Reading the local store back (backend/internal/detail/local.go: Count, Stream): a
    keyset-paged scan that hands every row to the sheet writer. */
module LocalStream {
  import opened Basics
  import opened LogRows
  import opened LocalStore
  import opened Xlsx

  predicate Wanted(r: LogItem, start: int, end: int, users: seq<string>) {
    start <= r.createdAt <= end && (users == [] || r.user in users)
  }

  /** The rows of the range and users. */
  ghost function Selected(table: Table, start: int, end: int, users: seq<string>): set<LogItem> {
    set id | id in table && Wanted(table[id], start, end, users) :: table[id]
  }

  lemma SelectedUnique(table: Table, start: int, end: int, users: seq<string>)
    requires Keyed(table)
    ensures UniqueIds(Selected(table, start, end, users))
  {
  }

  predicate Beyond(r: LogItem, lastTs: int, lastId: Id) {
    r.createdAt > lastTs || (r.createdAt == lastTs && r.id > lastId)
  }

  /** The rows behind the cursor. */
  ghost function Remaining(rows: set<LogItem>, lastTs: int, lastId: Id): set<LogItem> {
    set r | r in rows && Beyond(r, lastTs, lastId)
  }

  lemma RemainingUnique(rows: set<LogItem>, lastTs: int, lastId: Id)
    requires UniqueIds(rows)
    ensures UniqueIds(Remaining(rows, lastTs, lastId))
  {
  }

  lemma ListedAfter(all: seq<LogItem>, rows: set<LogItem>, i: nat, r: LogItem)
    requires Lists(all, rows) && i < |all|
    ensures r in all[i + 1..] <==> r in rows && Before(all[i], r)
  {
    if r in all[i + 1..] {
      var j :| 0 <= j < |all[i + 1..]| && all[i + 1..][j] == r;
      assert all[i + 1 + j] == r;
    }
    if r in rows && Before(all[i], r) {
      assert r in all;
      assert forall k :: 0 <= k < i ==> Before(all[k], all[i]);
      var j :| 0 <= j < |all| && all[j] == r;
      assert all[i + 1..][j - i - 1] == r;
    }
  }

  /** Moving the cursor to row i of the remaining listing leaves the rows after it. */
  lemma CursorMoves(rows: set<LogItem>, lastTs: int, lastId: Id, i: nat)
    requires UniqueIds(rows) && UniqueIds(Remaining(rows, lastTs, lastId))
    requires i < |Ordered(Remaining(rows, lastTs, lastId))|
    ensures var all := Ordered(Remaining(rows, lastTs, lastId));
      var next := Remaining(rows, all[i].createdAt, all[i].id);
      UniqueIds(next) && Ordered(next) == all[i + 1..]
  {
    var left := Remaining(rows, lastTs, lastId);
    var all := Ordered(left);
    var next := Remaining(rows, all[i].createdAt, all[i].id);
    OrderedLists(left);
    assert all[i] in left;
    forall r ensures r in all[i + 1..] <==> r in next {
      ListedAfter(all, left, i, r);
    }
    RemainingUnique(rows, all[i].createdAt, all[i].id);
    OrderedIs(all[i + 1..], next);
  }

  // ---------------------------------------------------------------- the queries

  /** SELECT COUNT(*) WHERE range AND users. */
  method Count(store: Local, start: int, end: int, users: seq<string>) returns (n: nat)
    requires Keyed(store.rows)
    ensures n == |Selected(store.rows, start, end, users)|
  {
    var rest := store.rows.Keys;
    ghost var seen: set<LogItem> := {};
    n := 0;
    while rest != {}
      invariant rest <= store.rows.Keys && n == |seen|
      invariant forall r :: r in seen <==>
        r.id in store.rows && r.id !in rest && store.rows[r.id] == r && Wanted(r, start, end, users)
      decreases rest
    {
      var id := Pick(rest);
      rest := rest - {id};
      if Wanted(store.rows[id], start, end, users) {
        seen := seen + {store.rows[id]};
        n := n + 1;
      }
    }
    assert seen == Selected(store.rows, start, end, users);
  }

  /** SELECT ... WHERE range AND users AND beyond the cursor ORDER BY created_at, log_id LIMIT n. */
  method SelectPage(store: Local, start: int, end: int, users: seq<string>, lastTs: int, lastId: Id, limit: nat,
                    ghost chosen: set<LogItem>)
      returns (page: seq<LogItem>)
    requires Keyed(store.rows) && chosen == Selected(store.rows, start, end, users)
    ensures var left := Remaining(chosen, lastTs, lastId);
      UniqueIds(left) && page == Ordered(left)[..Min(limit, |Ordered(left)|)]
  {
    var rest := store.rows.Keys;
    var found: seq<LogItem> := [];
    while rest != {}
      invariant rest <= store.rows.Keys
      invariant AllDistinctIds(found)
      invariant forall r :: r in found <==>
        && r.id in store.rows && r.id !in rest && store.rows[r.id] == r
        && Wanted(r, start, end, users) && Beyond(r, lastTs, lastId)
      decreases rest
    {
      var id := Pick(rest);
      rest := rest - {id};
      var r := store.rows[id];
      if Wanted(r, start, end, users) && Beyond(r, lastTs, lastId) {
        found := found + [r];
      }
    }
    SortedListing(found, Remaining(chosen, lastTs, lastId));
    var sorted := SortRows(found);
    return if limit < |sorted| then sorted[..limit] else sorted;
  }

  /** Sorting rows with distinct ids lists them. */
  lemma SortedListing(found: seq<LogItem>, rows: set<LogItem>)
    requires AllDistinctIds(found)
    requires forall r :: r in found <==> r in rows
    ensures UniqueIds(rows) && SortRows(found) == Ordered(rows)
  {
    forall a, b | a in rows && b in rows && a.id == b.id ensures a == b {
      assert a in found && b in found;
      var i :| 0 <= i < |found| && found[i] == a;
      var j :| 0 <= j < |found| && found[j] == b;
    }
    var sorted := SortRows(found);
    SortRowsSorted(found);
    DistinctIdsPermute(found, sorted);
    forall r ensures r in sorted <==> r in rows {
      assert r in multiset(sorted) <==> r in multiset(found);
    }
    OrderedIs(sorted, rows);
  }

  // ---------------------------------------------------------------- the scan

  /** Whether query p succeeds, whether the context is alive after page p, and the
      writer's file system during the k-th Add. */
  datatype StreamEnv = StreamEnv(query: nat -> bool, alive: nat -> bool, io: nat -> Io)

  /** The file system failed during some Add. */
  ghost predicate IoFault(env: StreamEnv) {
    exists k: nat :: var io := env.io(k); !(io.create && io.write && io.save)
  }

  datatype StreamEnd = Done | QueryFailed | AddFailed | ContextDone

  method SendPage(rows: seq<LogItem>, env: StreamEnv, k: nat, w: Writer, ghost before: seq<LogItem>)
      returns (ok: bool)
    requires w.Valid() && w.rows == before
    modifies w
    ensures ok ==> w.Valid() && w.rows == before + rows
    ensures !ok ==> IoFault(env)
  {
    assert before + rows[..0] == before;
    for i := 0 to |rows|
      invariant w.Valid() && w.rows == before + rows[..i]
    {
      ok := w.Add(rows[i], env.io(k + i));
      if !ok {
        return;
      }
      assert rows[..i + 1] == rows[..i] + [rows[i]];
    }
    assert rows[..|rows|] == rows;
    ok := true;
  }

  /** `sent` rows of the listing `all` lie before the cursor and the rest behind it. */
  ghost predicate Scanned(chosen: set<LogItem>, all: seq<LogItem>, sent: nat, lastTs: int, lastId: Id) {
    && sent <= |all|
    && UniqueIds(Remaining(chosen, lastTs, lastId))
    && Ordered(Remaining(chosen, lastTs, lastId)) == all[sent..]
  }

  lemma PageSlices(all: seq<LogItem>, sent: nat, page: seq<LogItem>, limit: nat)
    requires sent <= |all| && limit > 0 && page == all[sent..][..Min(limit, |all| - sent)]
    ensures sent + |page| <= |all| && all[..sent] + page == all[..sent + |page|]
    ensures all[sent..][|page|..] == all[sent + |page|..]
    ensures |page| < limit ==> sent + |page| == |all|
    ensures page != [] ==> page[|page| - 1] == all[sent..][|page| - 1]
  {
  }

  lemma PageAdvances(chosen: set<LogItem>, all: seq<LogItem>, sent: nat, lastTs: int, lastId: Id,
                     page: seq<LogItem>, ts: int, id: Id)
    requires UniqueIds(chosen) && Scanned(chosen, all, sent, lastTs, lastId) && |page| <= |all| - sent
    requires if page == [] then ts == lastTs && id == lastId
             else all[sent..][|page|..] == all[sent + |page|..] && all[sent..][|page| - 1] == page[|page| - 1]
                  && ts == page[|page| - 1].createdAt && id == page[|page| - 1].id
    ensures Scanned(chosen, all, sent + |page|, ts, id)
  {
    if page != [] {
      CursorMoves(chosen, lastTs, lastId, |page| - 1);
    }
  }

  /** The first `sent` rows of the listing have been handed over. */
  ghost predicate Told(told: seq<LogItem>, all: seq<LogItem>, sent: nat) {
    sent <= |all| && told == all[..sent]
  }

  /** Reads one page and moves the cursor to its last row. */
  method ReadPage(store: Local, start: int, end: int, users: seq<string>, page: nat, sent: nat, lastTs: int, lastId: Id,
                  ghost chosen: set<LogItem>, ghost all: seq<LogItem>, ghost told: seq<LogItem>)
      returns (rows: seq<LogItem>, lastTs': int, lastId': Id)
    requires Keyed(store.rows) && page > 0
    requires chosen == Selected(store.rows, start, end, users) && UniqueIds(chosen)
    requires Scanned(chosen, all, sent, lastTs, lastId) && Told(told, all, sent)
    ensures Told(told + rows, all, sent + |rows|)
    ensures Scanned(chosen, all, sent + |rows|, lastTs', lastId')
    ensures |rows| <= page && (|rows| < page ==> sent + |rows| == |all|)
  {
    rows := SelectPage(store, start, end, users, lastTs, lastId, page, chosen);
    PageSlices(all, sent, rows, page);
    lastTs', lastId' := lastTs, lastId;
    if |rows| > 0 {
      lastTs', lastId' := rows[|rows| - 1].createdAt, rows[|rows| - 1].id;
    }
    PageAdvances(chosen, all, sent, lastTs, lastId, rows, lastTs', lastId');
  }

  /** The rows of `p` full pages. */
  function Whole(p: nat, page: nat): nat {
    if p == 0 then 0 else Whole(p - 1, page) + page
  }

  /** The first `p` queries succeeded, and the context was alive after each. */
  ghost predicate Went(env: StreamEnv, p: nat) {
    forall q: nat :: q < p ==> env.query(q) && env.alive(q)
  }

  lemma {:induction false} WholeIs(p: nat, page: nat)
    ensures Whole(p, page) == p * page
  {
    if p > 0 {
      WholeIs(p - 1, page);
      assert p * page == (p - 1) * page + page;
    }
  }

  lemma LastPage(env: StreamEnv, p: nat, page: nat, rest: nat, total: nat)
    requires rest < page && total == Whole(p, page) + rest && Went(env, p) && env.query(p) && env.alive(p)
    ensures Went(env, total / page + 1)
  {
    WholeIs(p, page);
    DivUnique(total, page, p, rest);
  }

  /** `p` full pages have been read and handed over. */
  ghost predicate Scanning(chosen: set<LogItem>, all: seq<LogItem>, sent: nat, lastTs: int, lastId: Id,
                           told: seq<LogItem>, env: StreamEnv, p: nat, page: nat) {
    Scanned(chosen, all, sent, lastTs, lastId) && Told(told, all, sent) && sent == Whole(p, page) && Went(env, p)
  }

  /** Why the scan ends, if it does. */
  ghost predicate Ends(outcome: StreamEnd, all: seq<LogItem>, sent: nat, env: StreamEnv, page: nat)
    requires page > 0
  {
    match outcome
    case Done => sent == |all| && Went(env, |all| / page + 1)
    case QueryFailed => exists p: nat :: !env.query(p)
    case ContextDone => exists p: nat :: !env.alive(p)
    case AddFailed => IoFault(env)
  }

  /** Reads one page and hands it over. */
  method SendNext(store: Local, start: int, end: int, users: seq<string>, page: nat, env: StreamEnv, w: Writer,
                  p: nat, sent: nat, lastTs: int, lastId: Id,
                  ghost chosen: set<LogItem>, ghost all: seq<LogItem>, ghost told: seq<LogItem>)
      returns (outcome: Option<StreamEnd>, sent': nat, lastTs': int, lastId': Id, ghost told': seq<LogItem>)
    requires Keyed(store.rows) && page > 0 && w.Valid() && w.rows == told
    requires chosen == Selected(store.rows, start, end, users) && UniqueIds(chosen)
    requires Scanning(chosen, all, sent, lastTs, lastId, told, env, p, page)
    modifies w
    ensures sent' <= |all|
    ensures outcome != Some(AddFailed) ==> w.Valid() && w.rows == told' == all[..sent']
    ensures outcome.None? ==> Scanning(chosen, all, sent', lastTs', lastId', told', env, p + 1, page) && sent' > sent
    ensures outcome.Some? ==> Ends(outcome.value, all, sent', env, page)
  {
    outcome, sent', lastTs', lastId', told' := None, sent, lastTs, lastId, told;
    if !env.query(p) {
      return Some(QueryFailed), sent', lastTs', lastId', told';
    }
    var rows;
    rows, lastTs', lastId' := ReadPage(store, start, end, users, page, sent, lastTs, lastId, chosen, all, told);
    var ok := SendPage(rows, env, sent, w, told);
    if !ok {
      return Some(AddFailed), sent', lastTs', lastId', told';
    }
    told', sent' := told + rows, sent + |rows|;
    if !env.alive(p) {
      outcome := Some(ContextDone);
    } else if |rows| < page {
      LastPage(env, p, page, |rows|, |all|);
      outcome := Some(Done);
    }
  }

  /** Hands the rows of the range and users to the writer in (created_at, log_id) order, a
      page at a time, resuming behind the last row of each page. */
  method Stream(store: Local, start: int, end: int, users: seq<string>, page: nat, env: StreamEnv, w: Writer,
                ghost chosen: set<LogItem>, ghost all: seq<LogItem>)
      returns (outcome: StreamEnd, sent: nat)
    requires Keyed(store.rows) && page > 0 && w.Valid() && w.rows == []
    requires chosen == Selected(store.rows, start, end, users) && UniqueIds(chosen) && all == Ordered(chosen)
    modifies w
    ensures sent <= |all|
    ensures outcome != AddFailed ==> w.Valid() && w.rows == all[..sent]
    ensures outcome == Done ==> sent == |all|
    // One query for each full page and one more; it goes on only while they succeed and the
    // context is alive.
    ensures outcome == Done ==> Went(env, |all| / page + 1)
    ensures outcome == QueryFailed ==> exists p: nat :: !env.query(p)
    ensures outcome == ContextDone ==> exists p: nat :: !env.alive(p)
    ensures outcome == AddFailed ==> IoFault(env)
  {
    var lastTs, lastId: Id := start - 1, 0;
    assert Remaining(chosen, lastTs, lastId) == chosen;
    sent := 0;
    var p := 0;
    ghost var told: seq<LogItem> := [];
    while true
      invariant Scanning(chosen, all, sent, lastTs, lastId, told, env, p, page)
      invariant w.Valid() && w.rows == told
      decreases |all| - sent
    {
      var reached;
      reached, sent, lastTs, lastId, told :=
        SendNext(store, start, end, users, page, env, w, p, sent, lastTs, lastId, chosen, all, told);
      if reached.Some? {
        return reached.value, sent;
      }
      p := p + 1;
    }
  }
}
