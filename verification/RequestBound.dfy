/** How many bisections and upstream calls a faithful upstream costs. */
module RequestBound {
  import opened Basics
  import opened LogRows
  import opened SegmentFetch
  import opened SegmentLaws
  import opened Segments
  import opened CollectLaws
  import Cst

  /** The outcome of any fetch of a window when the upstream pages `log` faithfully. */
  ghost function ExactOutcome(log: set<LogItem>, user: string, s: int, e: int, cap: nat): Fetched
    requires UniqueIds(log)
  {
    var m := Matching(log, s, e, user);
    if |m| > cap && e > s then Fetched(Split, 1, false)
    else Fetched(Rows(Ordered(m)), LeafCalls(|m|), false)
  }

  ghost predicate Exact(oc: Outcomes, log: set<LogItem>, cap: nat) {
    && UniqueIds(log)
    && forall g: nat, user: string, s: int, e: int {:trigger oc(g, user, s, e)} ::
         oc(g, user, s, e) == ExactOutcome(log, user, s, e, cap)
  }

  lemma ServesExact(oc: Outcomes, env: Env, cap: nat, log: set<LogItem>, order: (int, int, string) -> seq<LogItem>)
    requires Runs(oc, env, cap) && Serves(env, log, order)
    ensures Exact(oc, log, cap)
  {
    forall g: nat, user: string, s: int, e: int
      ensures oc(g, user, s, e) == ExactOutcome(log, user, s, e, cap)
    {
      assert oc(g, user, s, e) == Fetch(env, g, user, s, e, cap);
      ExactFetch(env, g, user, s, e, cap, log, order);
    }
  }

  /** Every fetch of a window ends with its rows, or its bisection, after whatever calls. */
  ghost predicate Settles(oc: Outcomes, log: set<LogItem>, cap: nat) {
    && UniqueIds(log)
    && forall g: nat, user: string, s: int, e: int {:trigger oc(g, user, s, e)} ::
         oc(g, user, s, e).result == ExactOutcome(log, user, s, e, cap).result && !oc(g, user, s, e).short
  }

  lemma ToleratesSettles(oc: Outcomes, env: Env, cap: nat,
                         log: set<LogItem>, order: (int, int, string) -> seq<LogItem>, per: nat)
    requires Runs(oc, env, cap) && Tolerates(env, log, order, per)
    ensures Settles(oc, log, cap)
  {
    forall g: nat, user: string, s: int, e: int
      ensures oc(g, user, s, e).result == ExactOutcome(log, user, s, e, cap).result && !oc(g, user, s, e).short
    {
      assert oc(g, user, s, e) == Fetch(env, g, user, s, e, cap);
      TolerantFetch(env, g, user, s, e, cap, log, order, per);
    }
  }

  function Mid(s: int, e: int): int {
    s + (e - s) / 2
  }

  ghost function Size(log: set<LogItem>, user: string, s: int, e: int): nat {
    |Matching(log, s, e, user)|
  }

  /** The ordered rows of one target in each window. */
  type Listing = (int, int) -> seq<LogItem>

  ghost function ListingOf(log: set<LogItem>, user: string): Listing
    requires UniqueIds(log)
  {
    (s: int, e: int) => Ordered(Matching(log, s, e, user))
  }

  /** The one-line specification: bisect while there are too many rows, else fetch. */
  ghost function Bisect(rows: Listing, s: int, e: int, cap: nat): seq<LogItem>
    decreases e - s
  {
    if |rows(s, e)| > cap && e > s then Bisect(rows, s, Mid(s, e), cap) + Bisect(rows, Mid(s, e) + 1, e, cap)
    else rows(s, e)
  }

  ghost predicate Joins(rows: Listing) {
    forall s, e :: s < e ==> rows(s, e) == rows(s, Mid(s, e)) + rows(Mid(s, e) + 1, e)
  }

  lemma {:induction false} BisectJoins(rows: Listing, s: int, e: int, cap: nat)
    requires Joins(rows)
    ensures Bisect(rows, s, e, cap) == rows(s, e)
    decreases e - s
  {
    if |rows(s, e)| > cap && e > s {
      BisectJoins(rows, s, Mid(s, e), cap);
      BisectJoins(rows, Mid(s, e) + 1, e, cap);
    }
  }

  /** Bisecting at any cap gives the window's rows in order: the cap does not show. */
  lemma BisectIsOrdered(log: set<LogItem>, user: string, s: int, e: int, cap: nat)
    requires UniqueIds(log)
    ensures Bisect(ListingOf(log, user), s, e, cap) == Ordered(Matching(log, s, e, user))
  {
    forall s, e | s < e
      ensures ListingOf(log, user)(s, e) == ListingOf(log, user)(s, Mid(s, e)) + ListingOf(log, user)(Mid(s, e) + 1, e)
    {
      SplitWindow(log, s, Mid(s, e), e, user);
    }
    BisectJoins(ListingOf(log, user), s, e, cap);
  }

  // ---------------------------------------------------------------- costs by row counts

  /** The number of rows of one target in each window. */
  type Counts = (int, int) -> nat

  ghost function RowsIn(log: set<LogItem>, user: string): Counts {
    (s: int, e: int) => Size(log, user, s, e)
  }

  /** The rows of a window are those of its two halves. */
  ghost predicate Additive(n: Counts) {
    forall s, e :: s < e ==> n(s, e) == n(s, Mid(s, e)) + n(Mid(s, e) + 1, e)
  }

  lemma LogAdditive(log: set<LogItem>, user: string)
    requires UniqueIds(log)
    ensures Additive(RowsIn(log, user))
  {
    forall s, e | s < e
      ensures RowsIn(log, user)(s, e) == RowsIn(log, user)(s, Mid(s, e)) + RowsIn(log, user)(Mid(s, e) + 1, e)
    {
      SizeHalves(log, user, s, e);
    }
  }

  lemma SizeHalves(log: set<LogItem>, user: string, s: int, e: int)
    requires UniqueIds(log) && s < e
    ensures Size(log, user, s, e) == Size(log, user, s, Mid(s, e)) + Size(log, user, Mid(s, e) + 1, e)
  {
    SplitWindow(log, s, Mid(s, e), e, user);
  }

  /** The number of bisections of a window. */
  ghost function CutCount(n: Counts, s: int, e: int, cap: nat): nat
    decreases e - s
  {
    if n(s, e) > cap && e > s then
      1 + CutCount(n, s, Mid(s, e), cap) + CutCount(n, Mid(s, e) + 1, e, cap)
    else 0
  }

  /** The number of upstream calls for a window: one probe per bisection, one call per page. */
  ghost function CallCount(n: Counts, s: int, e: int, cap: nat): nat
    decreases e - s
  {
    if n(s, e) > cap && e > s then
      1 + CallCount(n, s, Mid(s, e), cap) + CallCount(n, Mid(s, e) + 1, e, cap)
    else LeafCalls(n(s, e))
  }

  // ---------------------------------------------------------------- bounds for one window

  lemma DivSum(a: nat, b: nat, n: nat)
    requires n > 0
    ensures a / n + b / n <= (a + b) / n
  {
    var qa, qb := a / n, b / n;
    Quotient(a, n);
    Quotient(b, n);
    assert (qa + qb) * n == qa * n + qb * n;
    DivGe(a + b, qa + qb, n);
  }

  lemma Quotient(a: nat, n: nat)
    requires n > 0
    ensures a / n * n <= a
  {
  }

  /** The bisections that `rows` rows can cause in a window `depth` bisections deep. */
  function CutBudget(rows: nat, cap: nat, depth: nat): nat {
    depth * (rows / (cap + 1))
  }

  lemma BudgetHalves(x: nat, y: nat, cap: nat, depth: nat)
    requires depth > 0 && x + y > cap
    ensures 1 + CutBudget(x, cap, depth - 1) + CutBudget(y, cap, depth - 1) <= CutBudget(x + y, cap, depth)
  {
    var qx, qy, q := x / (cap + 1), y / (cap + 1), (x + y) / (cap + 1);
    DivSum(x, y, cap + 1);
    DivGe(x + y, 1, cap + 1);
    BudgetArith(depth - 1, qx, qy, q);
  }

  lemma BudgetArith(d: nat, qx: nat, qy: nat, q: nat)
    requires qx + qy <= q && q >= 1
    ensures 1 + d * qx + d * qy <= (d + 1) * q
  {
    assert d * qx + d * qy == d * (qx + qy);
    Scale(d, qx + qy, q);
    assert (d + 1) * q == d * q + q;
  }

  lemma Scale(k: nat, a: nat, b: nat)
    requires a <= b
    ensures k * a <= k * b
  {
  }

  /** A window of at most 2^k seconds with R rows is bisected at most k * (R / (cap + 1)) times. */
  lemma {:induction false} CutsBounded(n: Counts, s: int, e: int, cap: nat, k: nat)
    requires Additive(n) && s <= e && e - s + 1 <= Pow(2, k)
    ensures CutCount(n, s, e, cap) <= CutBudget(n(s, e), cap, k)
    decreases k
  {
    if n(s, e) > cap && e > s {
      var m := Mid(s, e);
      CutsBounded(n, s, m, cap, k - 1);
      CutsBounded(n, m + 1, e, cap, k - 1);
      BudgetHalves(n(s, m), n(m + 1, e), cap, k);
    }
  }

  /** Two calls per bisection, one for the window and one per full page are enough. */
  lemma {:induction false} CallsBounded(n: Counts, s: int, e: int, cap: nat)
    requires Additive(n)
    ensures CallCount(n, s, e, cap) <= 2 * CutCount(n, s, e, cap) + 1 + n(s, e) / PAGE_SIZE
    decreases e - s
  {
    if n(s, e) > cap && e > s {
      var m := Mid(s, e);
      CallsBounded(n, s, m, cap);
      CallsBounded(n, m + 1, e, cap);
      CallsArith(n(s, m), n(m + 1, e), CallCount(n, s, m, cap), CallCount(n, m + 1, e, cap),
                 CutCount(n, s, m, cap), CutCount(n, m + 1, e, cap));
    }
  }

  /** Every bisection leads to two calls at least. */
  lemma {:induction false} CallsAtLeast(n: Counts, s: int, e: int, cap: nat)
    ensures CallCount(n, s, e, cap) >= 2 * CutCount(n, s, e, cap) + 1
    decreases e - s
  {
    if n(s, e) > cap && e > s {
      CallsAtLeast(n, s, Mid(s, e), cap);
      CallsAtLeast(n, Mid(s, e) + 1, e, cap);
    }
  }

  lemma CallsArith(x: nat, y: nat, c: nat, d: nat, a: nat, b: nat)
    requires c <= 2 * a + 1 + x / PAGE_SIZE && d <= 2 * b + 1 + y / PAGE_SIZE
    ensures 1 + c + d <= 2 * (1 + a + b) + 1 + (x + y) / PAGE_SIZE
  {
    DivSum(x, y, PAGE_SIZE);
  }

  // ---------------------------------------------------------------- what is left to pay

  ghost function CutsLeft(log: set<LogItem>, cap: nat): Seg -> nat {
    (sg: Seg) => if sg.done then 0 else CutCount(RowsIn(log, sg.user), sg.s, sg.e, cap)
  }

  ghost function CallsLeft(log: set<LogItem>, cap: nat): Seg -> nat {
    (sg: Seg) => if sg.done then 0 else CallCount(RowsIn(log, sg.user), sg.s, sg.e, cap)
  }

  lemma {:induction false} LeftAtLeast(log: set<LogItem>, cap: nat, segs: seq<Seg>)
    ensures Total(CallsLeft(log, cap), segs) >= 2 * Total(CutsLeft(log, cap), segs)
    decreases |segs|
  {
    if segs != [] {
      CallsAtLeast(RowsIn(log, segs[0].user), segs[0].s, segs[0].e, cap);
      LeftAtLeast(log, cap, segs[1..]);
    }
  }

  /** A bisection costs one call and leaves what its halves owe. */
  lemma SplitPays(log: set<LogItem>, cap: nat, sg: Seg, x: Seg, y: Seg)
    requires UniqueIds(log) && !sg.done && sg.s < sg.e && RowsIn(log, sg.user)(sg.s, sg.e) > cap
    requires x == Seg(sg.user, sg.s, Mid(sg.s, sg.e), [], false)
    requires y == Seg(sg.user, Mid(sg.s, sg.e) + 1, sg.e, [], false)
    ensures CallsLeft(log, cap)(x) + CallsLeft(log, cap)(y) + 1 == CallsLeft(log, cap)(sg)
    ensures CutsLeft(log, cap)(x) + CutsLeft(log, cap)(y) + 1 == CutsLeft(log, cap)(sg)
  {
  }

  lemma ReplacePays(oc: Outcomes, log: set<LogItem>, cap: nat, g: nat, sg: Seg)
    requires Exact(oc, log, cap) && !sg.done
    ensures var f := FetchOf(oc, g, sg);
      && Total(CallsLeft(log, cap), Replace(sg, f.result)) + f.calls == CallsLeft(log, cap)(sg)
      && Total(CutsLeft(log, cap), Replace(sg, f.result)) + (if f.result.Split? then 1 else 0) == CutsLeft(log, cap)(sg)
      && !f.short && !f.result.Err?
  {
    var f := FetchOf(oc, g, sg);
    assert f == ExactOutcome(log, sg.user, sg.s, sg.e, cap);
    if f.result.Split? {
      var mid := Mid(sg.s, sg.e);
      var x, y := Seg(sg.user, sg.s, mid, [], false), Seg(sg.user, mid + 1, sg.e, [], false);
      TotalTwo(CallsLeft(log, cap), x, y);
      TotalTwo(CutsLeft(log, cap), x, y);
      SplitPays(log, cap, sg, x, y);
    } else {
      TotalOne(CallsLeft(log, cap), sg.(rows := f.result.rows, done := true));
      TotalOne(CutsLeft(log, cap), sg.(rows := f.result.rows, done := true));
    }
  }

  /** A round pays for its calls and bisections out of what was left, and never fails. */
  lemma {:induction false} RoundPays(oc: Outcomes, log: set<LogItem>, cap: nat, g: nat, q: seq<Seg>, room: nat, i: nat)
    requires Exact(oc, log, cap) && i <= |q|
    ensures var t := RoundTally(oc, g, q, room, i);
      && Total(CallsLeft(log, cap), Round(oc, g, q, room, i)) + t.calls == Total(CallsLeft(log, cap), q[i..])
      && Total(CutsLeft(log, cap), Round(oc, g, q, room, i)) + t.splits == Total(CutsLeft(log, cap), q[i..])
      && t.shorts == 0 && t.errs == 0
    decreases |q| - i
  {
    if i < |q| {
      assert q[i..][0] == q[i] && q[i..][1..] == q[i + 1..];
      if q[i].done || room == 0 {
        RoundPays(oc, log, cap, g, q, room, i + 1);
        var rest := Round(oc, g, q, room, i + 1);
        TotalConcat(CallsLeft(log, cap), [q[i]], rest);
        TotalConcat(CutsLeft(log, cap), [q[i]], rest);
        TotalOne(CallsLeft(log, cap), q[i]);
        TotalOne(CutsLeft(log, cap), q[i]);
      } else {
        RoundPays(oc, log, cap, g + 1, q, room - 1, i + 1);
        ReplacePays(oc, log, cap, g, q[i]);
        var head, rest := Replace(q[i], FetchOf(oc, g, q[i]).result), Round(oc, g + 1, q, room - 1, i + 1);
        TotalConcat(CallsLeft(log, cap), head, rest);
        TotalConcat(CutsLeft(log, cap), head, rest);
      }
    } else {
      assert q[i..] == [];
    }
  }

  // ---------------------------------------------------------------- bounds for a whole export

  /** A segment within one day: 17 bisections deep at most, since 86400 <= 2^17. */
  ghost predicate WithinDay(sg: Seg) {
    sg.s <= sg.e && Cst.DayOf(sg.s) == Cst.DayOf(sg.e) && !sg.done
  }

  ghost function SizeOf(log: set<LogItem>): Seg -> nat {
    (sg: Seg) => Size(log, sg.user, sg.s, sg.e)
  }

  lemma DayIsShort(sg: Seg)
    requires WithinDay(sg)
    ensures sg.e - sg.s + 1 <= Pow(2, 17)
  {
    Cst.DayBounds(sg.s, Cst.DayOf(sg.s));
    Cst.DayBounds(sg.e, Cst.DayOf(sg.s));
    assert Pow(2, 10) == 1024;
    assert Pow(2, 17) == 131072;
  }

  lemma BudgetSum(x: nat, y: nat, cap: nat)
    ensures CutBudget(x, cap, 17) + CutBudget(y, cap, 17) <= CutBudget(x + y, cap, 17)
  {
    DivSum(x, y, cap + 1);
  }

  /** The cost of a list of day segments: R rows need at most 17 * (R / (cap + 1))
      bisections, and two calls per bisection, one per segment and one per full page. */
  lemma {:induction false} ListBounded(log: set<LogItem>, cap: nat, segs: seq<Seg>)
    requires UniqueIds(log) && forall sg :: sg in segs ==> WithinDay(sg)
    ensures Total(CutsLeft(log, cap), segs) <= CutBudget(Total(SizeOf(log), segs), cap, 17)
    ensures Total(CallsLeft(log, cap), segs)
         <= 2 * Total(CutsLeft(log, cap), segs) + |segs| + Total(SizeOf(log), segs) / PAGE_SIZE
    decreases |segs|
  {
    if segs != [] {
      var sg := segs[0];
      ListBounded(log, cap, segs[1..]);
      DayIsShort(sg);
      LogAdditive(log, sg.user);
      CutsBounded(RowsIn(log, sg.user), sg.s, sg.e, cap, 17);
      CallsBounded(RowsIn(log, sg.user), sg.s, sg.e, cap);
      BudgetSum(SizeOf(log)(sg), Total(SizeOf(log), segs[1..]), cap);
      DivSum(SizeOf(log)(sg), Total(SizeOf(log), segs[1..]), PAGE_SIZE);
    }
  }
}
