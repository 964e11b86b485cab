/** Usage log rows, their export order, and listings: a listing of a set of rows is
    the strictly ordered sequence of exactly those rows, which is unique. */
module LogRows {

  /** A BIGINT, the column type of log ids; 0 means that the row has no id. */
  type Id = x: int | -0x8000_0000_0000_0000 <= x < 0x8000_0000_0000_0000 witness 0

  /** One call record.  `data` stands for the columns that no decision depends on. */
  datatype LogItem = LogItem(id: Id, createdAt: int, user: string, data: int)

  /** The order of every export: by time, then by log id. */
  predicate Before(a: LogItem, b: LogItem) {
    a.createdAt < b.createdAt || (a.createdAt == b.createdAt && a.id < b.id)
  }

  ghost predicate Sorted(s: seq<LogItem>) {
    forall i, j :: 0 <= i < j < |s| ==> !Before(s[j], s[i])
  }

  ghost predicate StrictlySorted(s: seq<LogItem>) {
    forall i, j :: 0 <= i < j < |s| ==> Before(s[i], s[j])
  }

  ghost predicate UniqueIds(rows: set<LogItem>) {
    forall a, b :: a in rows && b in rows && a.id == b.id ==> a == b
  }

  /** `s` holds exactly the members of `rows`, each once, in export order. */
  ghost predicate Lists(s: seq<LogItem>, rows: set<LogItem>) {
    StrictlySorted(s) && (forall r :: r in s <==> r in rows)
  }

  /** A listing starts with its earliest row. */
  lemma ListingHead(s: seq<LogItem>, rows: set<LogItem>, r: LogItem)
    requires Lists(s, rows) && s != [] && r in rows
    ensures r == s[0] || Before(s[0], r)
  {
    assert r in s;
  }

  lemma {:induction false} ListingUnique(a: seq<LogItem>, b: seq<LogItem>, rows: set<LogItem>)
    requires Lists(a, rows) && Lists(b, rows)
    ensures a == b
    decreases |a|
  {
    if a == [] {
      ListingSize(a, rows);
      ListingSize(b, rows);
    } else {
      assert a[0] in rows && b != [] by { assert a[0] in b; }
      ListingHead(a, rows, b[0]);
      ListingHead(b, rows, a[0]);
      TailListing(a, rows);
      TailListing(b, rows);
      ListingUnique(a[1..], b[1..], rows - {a[0]});
      assert a == [a[0]] + a[1..] && b == [b[0]] + b[1..];
    }
  }

  lemma TailListing(s: seq<LogItem>, rows: set<LogItem>)
    requires Lists(s, rows) && s != []
    ensures Lists(s[1..], rows - {s[0]})
  {
    forall r ensures r in s[1..] <==> r in rows - {s[0]} {
      if r in rows - {s[0]} {
        var i :| 0 <= i < |s| && s[i] == r;
        assert s[1..][i - 1] == r;
      }
      if r in s[1..] {
        var i :| 0 <= i < |s[1..]| && s[1..][i] == r;
        assert Before(s[0], s[i + 1]);
      }
    }
  }

  lemma ListingConcat(a: seq<LogItem>, b: seq<LogItem>, rowsA: set<LogItem>, rowsB: set<LogItem>)
    requires Lists(a, rowsA) && Lists(b, rowsB)
    requires forall x, y :: x in rowsA && y in rowsB ==> Before(x, y)
    ensures Lists(a + b, rowsA + rowsB)
  {
    forall i, j | 0 <= i < j < |a + b|
      ensures Before((a + b)[i], (a + b)[j])
    {
      if i < |a| <= j {
        assert a[i] in rowsA && b[j - |a|] in rowsB;
      }
    }
  }

  lemma {:induction false} ListingSize(s: seq<LogItem>, rows: set<LogItem>)
    requires Lists(s, rows)
    ensures |s| == |rows|
    decreases |s|
  {
    if s == [] {
      assert forall r :: r in rows ==> r in s;
    } else {
      TailListing(s, rows);
      ListingSize(s[1..], rows - {s[0]});
      assert s[0] in rows;
    }
  }

  /** Every finite set of rows with distinct ids has an earliest row. */
  lemma {:induction false} EarliestExists(rows: set<LogItem>) returns (first: LogItem)
    requires rows != {} && UniqueIds(rows)
    ensures first in rows && forall r :: r in rows && r != first ==> Before(first, r)
    decreases |rows|
  {
    var x :| x in rows;
    if rows == {x} {
      first := x;
    } else {
      var rest := rows - {x};
      assert rows == rest + {x};
      var y := EarliestExists(rest);
      assert y in rows && x.id != y.id;
      first := if Before(x, y) then x else y;
      forall r | r in rows && r != first
        ensures Before(first, r)
      {
        if r != x && r != y { assert r in rest && Before(y, r); }
      }
    }
  }

  ghost function Earliest(rows: set<LogItem>): (first: LogItem)
    requires rows != {} && UniqueIds(rows)
    ensures first in rows && forall r :: r in rows && r != first ==> Before(first, r)
  {
    assert exists f :: f in rows && forall r :: r in rows && r != f ==> Before(f, r) by {
      var f := EarliestExists(rows);
    }
    var f :| f in rows && forall r :: r in rows && r != f ==> Before(f, r);
    f
  }

  /** `SELECT ... ORDER BY created_at, log_id` over a set of rows. */
  ghost function Ordered(rows: set<LogItem>): seq<LogItem>
    requires UniqueIds(rows)
    decreases |rows|
  {
    if rows == {} then [] else [Earliest(rows)] + Ordered(rows - {Earliest(rows)})
  }

  lemma ListingCons(f: LogItem, tail: seq<LogItem>, rows: set<LogItem>)
    requires f in rows && Lists(tail, rows - {f})
    requires forall r :: r in rows && r != f ==> Before(f, r)
    ensures Lists([f] + tail, rows)
  {
    var s := [f] + tail;
    forall i, j | 0 <= i < j < |s| ensures Before(s[i], s[j]) {
      assert s[j] in tail;
    }
    forall r ensures r in s <==> r in rows {
      assert r in s <==> r == f || r in tail;
    }
  }

  lemma {:induction false} OrderedLists(rows: set<LogItem>)
    requires UniqueIds(rows)
    ensures Lists(Ordered(rows), rows)
    decreases |rows|
  {
    if rows != {} {
      var f := Earliest(rows);
      var tail := Ordered(rows - {f});
      OrderedLists(rows - {f});
      ListingCons(f, tail, rows);
    }
  }

  /** There is only one listing. */
  lemma OrderedIs(s: seq<LogItem>, rows: set<LogItem>)
    requires UniqueIds(rows) && Lists(s, rows)
    ensures s == Ordered(rows)
  {
    OrderedLists(rows);
    ListingUnique(s, Ordered(rows), rows);
  }

  /** The rows of `log` in the closed window [s, e] that belong to `user` ("" = everybody). */
  ghost function Matching(log: set<LogItem>, s: int, e: int, user: string): set<LogItem> {
    set r | r in log && s <= r.createdAt <= e && (user == "" || r.user == user)
  }

  /** Cutting a window in two cuts its ordered rows in two. */
  lemma SplitWindow(log: set<LogItem>, s: int, m: int, e: int, user: string)
    requires UniqueIds(log) && s <= m + 1 && m <= e
    ensures Ordered(Matching(log, s, e, user))
         == Ordered(Matching(log, s, m, user)) + Ordered(Matching(log, m + 1, e, user))
    ensures |Matching(log, s, e, user)| == |Matching(log, s, m, user)| + |Matching(log, m + 1, e, user)|
  {
    var a, b := Matching(log, s, m, user), Matching(log, m + 1, e, user);
    assert a + b == Matching(log, s, e, user);
    OrderedLists(a);
    OrderedLists(b);
    ListingConcat(Ordered(a), Ordered(b), a, b);
    OrderedIs(Ordered(a) + Ordered(b), a + b);
    assert a !! b;
  }

  /** sort.SliceStable on (created_at, id): insertion keeps equal keys in input order. */
  function SortRows(s: seq<LogItem>): (t: seq<LogItem>)
    ensures multiset(t) == multiset(s) && |t| == |s|
  {
    if s == [] then []
    else
      assert s == s[..|s| - 1] + [s[|s| - 1]];
      Insert(SortRows(s[..|s| - 1]), s[|s| - 1])
  }

  function Insert(s: seq<LogItem>, r: LogItem): (t: seq<LogItem>)
    ensures multiset(t) == multiset(s) + multiset{r} && |t| == |s| + 1
  {
    if s == [] || !Before(r, s[|s| - 1]) then s + [r]
    else
      assert s == s[..|s| - 1] + [s[|s| - 1]];
      Insert(s[..|s| - 1], r) + [s[|s| - 1]]
  }

  lemma {:induction false} InsertSorted(s: seq<LogItem>, r: LogItem)
    requires Sorted(s)
    ensures Sorted(Insert(s, r))
  {
    if s == [] || !Before(r, s[|s| - 1]) {
    } else {
      var front, last := s[..|s| - 1], s[|s| - 1];
      InsertSorted(front, r);
      var t := Insert(front, r);
      forall i | 0 <= i < |t| ensures !Before(last, t[i]) {
        assert t[i] in multiset(t);
        assert t[i] in multiset(front) + multiset{r};
        if t[i] != r {
          assert t[i] in front;
          var k :| 0 <= k < |front| && front[k] == t[i];
          assert s[k] == t[i];
        }
      }
    }
  }

  lemma {:induction false} SortRowsSorted(s: seq<LogItem>)
    ensures Sorted(SortRows(s))
  {
    if s == [] {
    } else {
      SortRowsSorted(s[..|s| - 1]);
      InsertSorted(SortRows(s[..|s| - 1]), s[|s| - 1]);
    }
  }

  /** The rows of one time and id, in their order. */
  function OfKey(s: seq<LogItem>, ts: int, id: Id): seq<LogItem> {
    if s == [] then []
    else
      var r := s[|s| - 1];
      OfKey(s[..|s| - 1], ts, id) + if r.createdAt == ts && r.id == id then [r] else []
  }

  lemma OfKeySnoc(s: seq<LogItem>, r: LogItem, ts: int, id: Id)
    ensures OfKey(s + [r], ts, id) == OfKey(s, ts, id) + if r.createdAt == ts && r.id == id then [r] else []
  {
    assert (s + [r])[..|s|] == s;
  }

  lemma {:induction false} InsertStable(s: seq<LogItem>, r: LogItem, ts: int, id: Id)
    ensures OfKey(Insert(s, r), ts, id) == OfKey(s + [r], ts, id)
  {
    if s != [] && Before(r, s[|s| - 1]) {
      var front, last := s[..|s| - 1], s[|s| - 1];
      InsertStable(front, r, ts, id);
      OfKeySnoc(Insert(front, r), last, ts, id);
      OfKeySnoc(front, r, ts, id);
      OfKeySnoc(s, r, ts, id);
    }
  }

  /** Sorting is stable: rows of one time and id, such as those without an id, keep their order. */
  lemma {:induction false} SortRowsStable(s: seq<LogItem>, ts: int, id: Id)
    ensures OfKey(SortRows(s), ts, id) == OfKey(s, ts, id)
  {
    if s != [] {
      var front, last := s[..|s| - 1], s[|s| - 1];
      SortRowsStable(front, ts, id);
      InsertStable(SortRows(front), last, ts, id);
      OfKeySnoc(SortRows(front), last, ts, id);
    }
  }

  ghost predicate DistinctIds(s: seq<LogItem>) {
    forall i, j :: 0 <= i < j < |s| && s[i].id != 0 ==> s[i].id != s[j].id
  }

  ghost predicate AllDistinctIds(s: seq<LogItem>) {
    forall i, j :: 0 <= i < j < |s| ==> s[i].id != s[j].id
  }

  /** Two rows with one id have counterparts in every permutation. */
  lemma Twins(s: seq<LogItem>, t: seq<LogItem>, i: nat, j: nat) returns (a: nat, b: nat)
    requires multiset(s) == multiset(t) && i < j < |t| && t[i].id == t[j].id
    ensures a < b < |s| && s[a].id == s[b].id == t[i].id
  {
    assert t[i] in multiset(t) && t[j] in multiset(t);
    assert t[i] in s && t[j] in s;
    a :| 0 <= a < |s| && s[a] == t[i];
    b :| 0 <= b < |s| && s[b] == t[j];
    if a == b {
      CountTwo(t, i, j);
      if forall k :: 0 <= k < |s| && k != a ==> s[k] != s[a] {
        CountOne(s, a);
        assert false;
      }
      b :| 0 <= b < |s| && b != a && s[b] == s[a];
    }
    if b < a {
      a, b := b, a;
    }
  }

  /** Distinctness of the ids only depends on which rows occur how often. */
  lemma DistinctIdsPermute(s: seq<LogItem>, t: seq<LogItem>)
    requires multiset(s) == multiset(t)
    ensures DistinctIds(s) ==> DistinctIds(t)
    ensures AllDistinctIds(s) ==> AllDistinctIds(t)
  {
    forall i, j | 0 <= i < j < |t| && t[i].id == t[j].id
      ensures (DistinctIds(s) ==> t[i].id == 0) && !AllDistinctIds(s)
    {
      var a, b := Twins(s, t, i, j);
    }
  }

  lemma CountTwo(t: seq<LogItem>, i: int, j: int)
    requires 0 <= i < j < |t| && t[i] == t[j]
    ensures multiset(t)[t[i]] >= 2
  {
    assert t == t[..i] + [t[i]] + t[i + 1..j] + [t[j]] + t[j + 1..];
  }

  lemma CountOne(s: seq<LogItem>, a: int)
    requires 0 <= a < |s| && forall k :: 0 <= k < |s| && k != a ==> s[k] != s[a]
    ensures multiset(s)[s[a]] == 1
  {
    assert s == s[..a] + [s[a]] + s[a + 1..];
    assert s[a] !in s[..a] && s[a] !in s[a + 1..];
  }
}
