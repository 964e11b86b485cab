/** What a segment fetch guarantees: for any upstream, for an upstream whose totals
    are true, and for one that pages a fixed log faithfully. */
module SegmentLaws {
  import opened Basics
  import opened LogRows
  import opened SegmentFetch

  // ---------------------------------------------------------------- any upstream

  /** `k` calls for the same page, retries included. */
  function Repeat(page: nat, k: nat): seq<nat> {
    seq(k, _ => page)
  }

  /** The calls made so far and those of one more attempt at a page, call by call. */
  function Calling(asked: seq<nat>, page: nat, t: Tried): seq<nat> {
    if t.next > |asked| then asked + Repeat(page, t.next - |asked|) else asked
  }

  /** The pages that all calls have asked for when the paging loop ends, call by call. */
  ghost function PagesAsked(env: Env, g: nat, asked: seq<nat>, user: string, s: int, e: int, total: nat,
                            rows: seq<LogItem>, page: nat, maxPage: nat): seq<nat>
    decreases maxPage + 1 - page
  {
    if |rows| < total && page <= maxPage then
      var t := Attempt(env, g, |asked|, LogOpt(page, s, e, user), 0);
      var here := Calling(asked, page, t);
      if t.resp.Page? && t.resp.items != []
      then PagesAsked(env, g, here, user, s, e, total, Absorb(rows, t.resp.items), page + 1, maxPage)
      else here
    else asked
  }

  /** The pages that the calls of a segment fetch ask for, call by call. */
  ghost function Asked(env: Env, g: nat, user: string, s: int, e: int, cap: nat): seq<nat> {
    var t := Attempt(env, g, 0, LogOpt(1, s, e, user), 0);
    var first := Calling([], 1, t);
    if t.resp.Page? && !(t.resp.total > cap && e > s)
    then PagesAsked(env, g, first, user, s, e, t.resp.total, Absorb([], t.resp.items), 2,
                    MaxPage(t.resp.total, t.resp.items))
    else first
  }

  /** The upstream answered one of the calls that asked for these pages with `r`. */
  ghost predicate Served(env: Env, g: nat, user: string, s: int, e: int, asked: seq<nat>, r: LogItem) {
    exists n {:trigger asked[n]} :: 0 <= n < |asked| && asked[n] >= 1 &&
      var resp := env.fetch(g, n, LogOpt(asked[n], s, e, user));
      resp.Page? && r in resp.items
  }

  /** The answer to call number `n`, which asked for page `asked[n]`. */
  ghost function AnswerTo(env: Env, g: nat, user: string, s: int, e: int, asked: seq<nat>, n: nat): Response
    requires n < |asked|
  {
    env.fetch(g, n, LogOpt(asked[n], s, e, user))
  }

  /** After call `n` the same page is asked for again if the call failed, and else the next one. */
  ghost predicate TurnsOn(env: Env, g: nat, user: string, s: int, e: int, asked: seq<nat>, n: nat)
    requires n + 1 < |asked|
  {
    asked[n + 1] == if AnswerTo(env, g, user, s, e, asked, n).Page? then asked[n] + 1 else asked[n]
  }

  /** The pages are asked for in turn, from page 1 on. */
  ghost predicate InTurn(env: Env, g: nat, user: string, s: int, e: int, asked: seq<nat>) {
    (asked != [] ==> asked[0] == 1) && forall n :: 0 <= n < |asked| - 1 ==> TurnsOn(env, g, user, s, e, asked, n)
  }

  /** A row without an id is there itself, any other one by its id. */
  ghost predicate KeptIn(rows: seq<LogItem>, it: LogItem) {
    if it.id == 0 then it in rows else HasId(rows, it.id)
  }

  ghost predicate Returns(env: Env, g: nat, user: string, s: int, e: int, asked: seq<nat>, n: nat, it: LogItem)
    requires n < |asked|
  {
    AnswerTo(env, g, user, s, e, asked, n).Page? && it in AnswerTo(env, g, user, s, e, asked, n).items
  }

  /** Every row that these calls returned is kept. */
  ghost predicate AllKept(env: Env, g: nat, user: string, s: int, e: int, asked: seq<nat>, rows: seq<LogItem>) {
    forall n, it :: 0 <= n < |asked| && Returns(env, g, user, s, e, asked, n, it) ==> KeptIn(rows, it)
  }

  /** The last of these calls failed this way, or the context ended while backing off after it. */
  ghost predicate LastFails(env: Env, g: nat, user: string, s: int, e: int, asked: seq<nat>, f: Fault) {
    asked != [] &&
      var n := |asked| - 1;
      AnswerTo(env, g, user, s, e, asked, n) == Failed(f) || (f == Canceled && env.ctxDone(g, n))
  }

  /** Nothing was left to try: the last call met a 429 or a done context, or it was the third
      one for its page and all three failed. */
  ghost predicate GivenUp(env: Env, g: nat, user: string, s: int, e: int, asked: seq<nat>) {
    asked != [] &&
      var n := |asked| - 1;
      || AnswerTo(env, g, user, s, e, asked, n) == Failed(RateLimited)
      || env.ctxErr(g, n) || env.ctxDone(g, n)
      || (n >= 2 && asked[n] == asked[n - 1] == asked[n - 2]
          && forall k :: n - 2 <= k <= n ==> AnswerTo(env, g, user, s, e, asked, k).Failed?)
  }

  /** The rows repeat no non-zero id and were all returned by these calls. */
  ghost predicate Clean(env: Env, g: nat, user: string, s: int, e: int, asked: seq<nat>, rows: seq<LogItem>) {
    DistinctIds(rows) && forall r :: r in rows ==> Served(env, g, user, s, e, asked, r)
  }

  /** What the calls of one attempt at a page are: all but the last one failed. */
  lemma AttemptAsks(env: Env, g: nat, user: string, s: int, e: int, page: nat, asked: seq<nat>)
    ensures var t := Attempt(env, g, |asked|, LogOpt(page, s, e, user), 0);
      var here := Calling(asked, page, t);
      && asked < here && |here| == t.next
      && (forall n :: |asked| <= n < |here| ==> here[n] == page)
      && (forall n :: |asked| <= n < |here| - 1 ==> AnswerTo(env, g, user, s, e, here, n).Failed?)
      && (t.resp.Page? ==> t.resp == AnswerTo(env, g, user, s, e, here, t.next - 1))
      && (t.resp.Failed? ==> env.fetch(g, t.next - 1, LogOpt(page, s, e, user)).Failed?)
  {
    RetryNeverRepeatsRateLimits(env, g, |asked|, LogOpt(page, s, e, user), 0);
    FailureIsReal(env, g, |asked|, LogOpt(page, s, e, user), 0);
  }

  lemma {:induction false} FailureIsReal(env: Env, g: nat, n: nat, opt: LogOpt, i: nat)
    requires i <= SEG_RETRIES
    ensures var t := Attempt(env, g, n, opt, i);
      t.next >= 1 && (t.resp.Failed? ==> env.fetch(g, t.next - 1, opt).Failed?)
    decreases SEG_RETRIES - i
  {
    if Transient(env, g, n, opt) && i < SEG_RETRIES {
      FailureIsReal(env, g, n + 1, opt, i + 1);
    }
  }

  /** An attempt that fails has given up. */
  lemma AttemptGivesUp(env: Env, g: nat, user: string, s: int, e: int, page: nat, asked: seq<nat>)
    ensures var t := Attempt(env, g, |asked|, LogOpt(page, s, e, user), 0);
      var here := Calling(asked, page, t);
      t.resp.Failed? ==> LastFails(env, g, user, s, e, here, t.resp.fault) && GivenUp(env, g, user, s, e, here)
  {
    AttemptAsks(env, g, user, s, e, page, asked);
    RetryNeverRepeatsRateLimits(env, g, |asked|, LogOpt(page, s, e, user), 0);
    RetryPersists(env, g, |asked|, LogOpt(page, s, e, user), 0);
  }

  /** The rows are those that these calls returned. */
  ghost predicate Holding(env: Env, g: nat, user: string, s: int, e: int, asked: seq<nat>, rows: seq<LogItem>) {
    Clean(env, g, user, s, e, asked, rows) && AllKept(env, g, user, s, e, asked, rows)
  }

  /** The next page to ask for is page `page`. */
  ghost predicate Turning(env: Env, g: nat, user: string, s: int, e: int, asked: seq<nat>, page: nat) {
    && page >= 1 && InTurn(env, g, user, s, e, asked)
    && (if asked == [] then page == 1
        else AnswerTo(env, g, user, s, e, asked, |asked| - 1).Page? && asked[|asked| - 1] == page - 1)
  }

  lemma AbsorbKeepsAll(rows: seq<LogItem>, items: seq<LogItem>)
    ensures rows <= Absorb(rows, items)
    ensures forall it :: it in items ==> KeptIn(Absorb(rows, items), it)
  {
    var at := AbsorbKeepsNew(rows, items, |items|);
    assert items[..|items|] == items;
    forall it | it in items ensures KeptIn(Absorb(rows, items), it) {
      var k :| 0 <= k < |items| && items[k] == it;
      if it.id == 0 {
        assert NewAt(rows, items, k);
        var i :| 0 <= i < |at| && at[i] == k;
        assert Absorb(rows, items)[|rows| + i] == it;
      }
    }
  }

  lemma KeptStays(rows: seq<LogItem>, more: seq<LogItem>, it: LogItem)
    requires rows <= more && KeptIn(rows, it)
    ensures KeptIn(more, it)
  {
    assert forall r :: r in rows ==> r in more;
  }

  /** One more attempt at a page, with the rows it brings. */
  lemma AttemptHolds(env: Env, g: nat, user: string, s: int, e: int, rows: seq<LogItem>, page: nat,
                     asked: seq<nat>, t: Tried)
    requires page >= 1 && Holding(env, g, user, s, e, asked, rows)
    requires t == Attempt(env, g, |asked|, LogOpt(page, s, e, user), 0)
    ensures |Calling(asked, page, t)| == t.next > |asked|
    ensures t.resp.Page? ==> Holding(env, g, user, s, e, Calling(asked, page, t), Absorb(rows, t.resp.items))
    ensures t.resp.Failed? || t.resp.items == [] ==> Holding(env, g, user, s, e, Calling(asked, page, t), rows)
  {
    var here, items := Calling(asked, page, t), if t.resp.Page? then t.resp.items else [];
    var all := Absorb(rows, items);
    AttemptAsks(env, g, user, s, e, page, asked);
    AbsorbKeepsDistinct(rows, items);
    AbsorbKeepsAll(rows, items);
    forall n | 0 <= n < |asked|
      ensures here[n] == asked[n] && AnswerTo(env, g, user, s, e, here, n) == AnswerTo(env, g, user, s, e, asked, n)
    {
    }
    forall r | r in all ensures Served(env, g, user, s, e, here, r) {
      if r in rows {
        var n :| 0 <= n < |asked| && asked[n] >= 1 &&
          var resp := env.fetch(g, n, LogOpt(asked[n], s, e, user)); resp.Page? && r in resp.items;
        assert here[n] == asked[n];
      } else {
        assert here[t.next - 1] >= 1;
      }
    }
    forall n, it | 0 <= n < |here| && Returns(env, g, user, s, e, here, n, it) ensures KeptIn(all, it) {
      if n < |asked| {
        assert Returns(env, g, user, s, e, asked, n, it);
        KeptStays(rows, all, it);
      }
    }
  }

  /** ... and the page it leads to. */
  lemma AttemptTurns(env: Env, g: nat, user: string, s: int, e: int, page: nat, asked: seq<nat>, t: Tried)
    requires Turning(env, g, user, s, e, asked, page)
    requires t == Attempt(env, g, |asked|, LogOpt(page, s, e, user), 0)
    ensures var here := Calling(asked, page, t);
      && asked < here && |here| == t.next && here[t.next - 1] == page
      && InTurn(env, g, user, s, e, here)
      && (t.resp.Page? ==> Turning(env, g, user, s, e, here, page + 1))
      && (t.resp.Page? ==> t.resp == AnswerTo(env, g, user, s, e, here, t.next - 1))
      && (t.resp.Failed? ==> GivenUp(env, g, user, s, e, here) && LastFails(env, g, user, s, e, here, t.resp.fault))
  {
    var here := Calling(asked, page, t);
    AttemptAsks(env, g, user, s, e, page, asked);
    AttemptGivesUp(env, g, user, s, e, page, asked);
    forall n | 0 <= n < |here| - 1 ensures TurnsOn(env, g, user, s, e, here, n) {
      if n + 1 < |asked| {
        assert TurnsOn(env, g, user, s, e, asked, n);
      }
    }
  }

  /** One turn of the paging loop. */
  lemma PagesUnfolds(env: Env, g: nat, n: nat, user: string, s: int, e: int, total: nat,
                     rows: seq<LogItem>, page: nat, maxPage: nat, t: Tried)
    requires |rows| < total && page <= maxPage
    requires t == Attempt(env, g, n, LogOpt(page, s, e, user), 0)
    ensures Pages(env, g, n, user, s, e, total, rows, page, maxPage)
         == if t.resp.Failed? then Broken(t.resp.fault, t.next)
            else if t.resp.items == [] then Got(rows, t.next)
            else Pages(env, g, t.next, user, s, e, total, Absorb(rows, t.resp.items), page + 1, maxPage)
  {
  }

  /** The last of these calls returned an empty page, or asked for page `maxPage`. */
  ghost predicate Exhausts(env: Env, g: nat, user: string, s: int, e: int, asked: seq<nat>, maxPage: nat) {
    asked != [] &&
      var r := AnswerTo(env, g, user, s, e, asked, |asked| - 1);
      r.Page? && (r.items == [] || asked[|asked| - 1] >= maxPage)
  }

  /** The paging loop returns the rows of these calls, or fails with the fault of the last one. */
  ghost predicate Held(env: Env, g: nat, user: string, s: int, e: int, p: Paged, asked: seq<nat>) {
    match p
    case Got(rows, next) => |asked| == next && Holding(env, g, user, s, e, asked, rows)
    case Broken(f, next) => |asked| == next && LastFails(env, g, user, s, e, asked, f)
  }

  lemma {:induction false} PagesHold(env: Env, g: nat, user: string, s: int, e: int, total: nat,
                                     rows: seq<LogItem>, page: nat, maxPage: nat, asked: seq<nat>)
    requires page >= 1 && Holding(env, g, user, s, e, asked, rows)
    ensures Held(env, g, user, s, e, Pages(env, g, |asked|, user, s, e, total, rows, page, maxPage),
                 PagesAsked(env, g, asked, user, s, e, total, rows, page, maxPage))
    decreases maxPage + 1 - page
  {
    if |rows| < total && page <= maxPage {
      var t := Attempt(env, g, |asked|, LogOpt(page, s, e, user), 0);
      AttemptHolds(env, g, user, s, e, rows, page, asked, t);
      AttemptGivesUp(env, g, user, s, e, page, asked);
      if t.resp.Page? && t.resp.items != [] {
        PagesHold(env, g, user, s, e, total, Absorb(rows, t.resp.items), page + 1, maxPage, Calling(asked, page, t));
      }
      PagesUnfolds(env, g, |asked|, user, s, e, total, rows, page, maxPage, t);
    }
  }

  /** The pages are asked for in turn; too few rows, or a failure, come only when nothing is left to ask. */
  ghost predicate Turned(env: Env, g: nat, user: string, s: int, e: int, p: Paged, total: nat, maxPage: nat,
                         asked: seq<nat>) {
    match p
    case Got(rows, _) =>
      InTurn(env, g, user, s, e, asked) && (|rows| < total ==> Exhausts(env, g, user, s, e, asked, maxPage))
    case Broken(_, _) => InTurn(env, g, user, s, e, asked) && GivenUp(env, g, user, s, e, asked)
  }

  /** The turn that ends the loop. */
  lemma LastTurn(env: Env, g: nat, user: string, s: int, e: int, page: nat, asked: seq<nat>, t: Tried,
                 rows: seq<LogItem>, total: nat, maxPage: nat)
    requires Turning(env, g, user, s, e, asked, page) && (t.resp.Page? ==> t.resp.items == [])
    requires t == Attempt(env, g, |asked|, LogOpt(page, s, e, user), 0)
    ensures Turned(env, g, user, s, e, if t.resp.Failed? then Broken(t.resp.fault, t.next) else Got(rows, t.next),
                   total, maxPage, Calling(asked, page, t))
  {
    AttemptTurns(env, g, user, s, e, page, asked, t);
  }

  lemma {:induction false} PagesTurn(env: Env, g: nat, user: string, s: int, e: int, total: nat,
                                     rows: seq<LogItem>, page: nat, maxPage: nat, asked: seq<nat>)
    requires page >= 2 && Turning(env, g, user, s, e, asked, page)
    ensures Turned(env, g, user, s, e, Pages(env, g, |asked|, user, s, e, total, rows, page, maxPage), total, maxPage,
                   PagesAsked(env, g, asked, user, s, e, total, rows, page, maxPage))
    decreases maxPage + 1 - page
  {
    if |rows| < total && page <= maxPage {
      var t := Attempt(env, g, |asked|, LogOpt(page, s, e, user), 0);
      AttemptAsks(env, g, user, s, e, page, asked);
      PagesUnfolds(env, g, |asked|, user, s, e, total, rows, page, maxPage, t);
      if t.resp.Page? && t.resp.items != [] {
        AttemptTurns(env, g, user, s, e, page, asked, t);
        PagesTurn(env, g, user, s, e, total, Absorb(rows, t.resp.items), page + 1, maxPage, Calling(asked, page, t));
      } else {
        LastTurn(env, g, user, s, e, page, asked, t, rows, total, maxPage);
      }
    }
  }

  lemma {:induction false} PagesExtend(env: Env, g: nat, user: string, s: int, e: int, total: nat,
                                       rows: seq<LogItem>, page: nat, maxPage: nat, asked: seq<nat>)
    ensures asked <= PagesAsked(env, g, asked, user, s, e, total, rows, page, maxPage)
    decreases maxPage + 1 - page
  {
    if |rows| < total && page <= maxPage {
      var t := Attempt(env, g, |asked|, LogOpt(page, s, e, user), 0);
      if t.resp.Page? && t.resp.items != [] {
        PagesExtend(env, g, user, s, e, total, Absorb(rows, t.resp.items), page + 1, maxPage, Calling(asked, page, t));
      }
    }
  }

  /** The first page that was answered. */
  ghost predicate FirstPage(env: Env, g: nat, user: string, s: int, e: int, asked: seq<nat>, first: Response) {
    first.Page? && exists n :: 0 <= n < |asked| && asked[n] == 1 && AnswerTo(env, g, user, s, e, asked, n) == first
  }

  /** Rows that are fewer than the first page announces: the last call returned an empty page, or
      asked for the page beyond all pages of the first one's length. */
  ghost predicate ShortForAReason(env: Env, g: nat, user: string, s: int, e: int, asked: seq<nat>, rows: seq<LogItem>) {
    exists first :: FirstPage(env, g, user, s, e, asked, first) && |rows| < first.total
      && Exhausts(env, g, user, s, e, asked, first.total / (if |first.items| == 0 then 1 else |first.items|) + 3)
  }

  ghost predicate Enough(env: Env, g: nat, user: string, s: int, e: int, asked: seq<nat>, rows: seq<LogItem>) {
    exists first :: FirstPage(env, g, user, s, e, asked, first) && |rows| >= first.total
  }

  /** The outcome of a segment fetch rests on these calls: its rows or its fault. */
  ghost predicate FetchRestsOn(env: Env, g: nat, user: string, s: int, e: int, f: Fetched, asked: seq<nat>) {
    && |asked| == f.calls && InTurn(env, g, user, s, e, asked)
    && (f.result.Rows? ==>
          && Sorted(f.result.rows) && Clean(env, g, user, s, e, asked, f.result.rows)
          && AllKept(env, g, user, s, e, asked, f.result.rows)
          && (if f.short then ShortForAReason(env, g, user, s, e, asked, f.result.rows)
              else Enough(env, g, user, s, e, asked, f.result.rows)))
    && (f.result.Err? ==>
          LastFails(env, g, user, s, e, asked, f.result.fault) && GivenUp(env, g, user, s, e, asked))
  }

  lemma FetchRests(env: Env, g: nat, user: string, s: int, e: int, cap: nat)
    ensures FetchRestsOn(env, g, user, s, e, Fetch(env, g, user, s, e, cap), Asked(env, g, user, s, e, cap))
  {
    var t := Attempt(env, g, 0, LogOpt(1, s, e, user), 0);
    AttemptHolds(env, g, user, s, e, [], 1, [], t);
    AttemptTurns(env, g, user, s, e, 1, [], t);
    if t.resp.Page? && !(t.resp.total > cap && e > s) {
      RestsAfterFirst(env, g, user, s, e, t.resp, Calling([], 1, t));
    }
  }

  lemma RestsAfterFirst(env: Env, g: nat, user: string, s: int, e: int, first: Response, here: seq<nat>)
    requires first.Page? && here != [] && here[|here| - 1] == 1
    requires AnswerTo(env, g, user, s, e, here, |here| - 1) == first
    requires Holding(env, g, user, s, e, here, Absorb([], first.items)) && Turning(env, g, user, s, e, here, 2)
    ensures var rows, maxPage := Absorb([], first.items), MaxPage(first.total, first.items);
      FetchRestsOn(env, g, user, s, e,
                   Ended(Pages(env, g, |here|, user, s, e, first.total, rows, 2, maxPage), first.total),
                   PagesAsked(env, g, here, user, s, e, first.total, rows, 2, maxPage))
  {
    var rows, maxPage := Absorb([], first.items), MaxPage(first.total, first.items);
    var asked := PagesAsked(env, g, here, user, s, e, first.total, rows, 2, maxPage);
    var p := Pages(env, g, |here|, user, s, e, first.total, rows, 2, maxPage);
    PagesHold(env, g, user, s, e, first.total, rows, 2, maxPage, here);
    PagesTurn(env, g, user, s, e, first.total, rows, 2, maxPage, here);
    PagesExtend(env, g, user, s, e, first.total, rows, 2, maxPage, here);
    assert AnswerTo(env, g, user, s, e, asked, |here| - 1) == first && asked[|here| - 1] == 1;
    assert FirstPage(env, g, user, s, e, asked, first);
    if p.Got? {
      SortHolds(env, g, user, s, e, asked, p.rows);
    }
  }

  /** Sorting changes neither which rows there are nor how many. */
  lemma SortHolds(env: Env, g: nat, user: string, s: int, e: int, asked: seq<nat>, rows: seq<LogItem>)
    requires Holding(env, g, user, s, e, asked, rows)
    ensures Holding(env, g, user, s, e, asked, SortRows(rows)) && Sorted(SortRows(rows))
  {
    var sorted := SortRows(rows);
    SortRowsSorted(rows);
    DistinctIdsPermute(rows, sorted);
    SameRows(rows, sorted);
    forall r | r in sorted ensures Served(env, g, user, s, e, asked, r) {
      assert r in rows;
    }
    forall n, it | 0 <= n < |asked| && Returns(env, g, user, s, e, asked, n, it) ensures KeptIn(sorted, it) {
      assert KeptIn(rows, it);
    }
  }

  /** Whatever the upstream does, a fetched segment is in export order, repeats no non-zero
      id, holds only rows that a call of this very fetch returned, and every such row is there. */
  lemma AnyUpstream(env: Env, g: nat, user: string, s: int, e: int, cap: nat)
    ensures var f, asked := Fetch(env, g, user, s, e, cap), Asked(env, g, user, s, e, cap);
      && |asked| == f.calls
      && (f.result.Rows? ==>
            && Sorted(f.result.rows) && Clean(env, g, user, s, e, asked, f.result.rows)
            && AllKept(env, g, user, s, e, asked, f.result.rows))
  {
    FetchRests(env, g, user, s, e, cap);
  }

  /** ... and it is not given up early: the pages are asked for in turn, and a segment counts as
      short only after an empty page or one beyond all that the first page announces. */
  lemma PagesInTurn(env: Env, g: nat, user: string, s: int, e: int, cap: nat)
    ensures var f, asked := Fetch(env, g, user, s, e, cap), Asked(env, g, user, s, e, cap);
      && InTurn(env, g, user, s, e, asked)
      && (f.result.Rows? && f.short ==> ShortForAReason(env, g, user, s, e, asked, f.result.rows))
      && (f.result.Rows? && !f.short ==> Enough(env, g, user, s, e, asked, f.result.rows))
  {
    FetchRests(env, g, user, s, e, cap);
  }

  /** A segment fetch fails only with the fault of its own last call, or because the context
      ended while it backed off after that call; and only at a 429, under a done context, or
      after three failed calls for one page. */
  lemma FetchFails(env: Env, g: nat, user: string, s: int, e: int, cap: nat)
    ensures var f, asked := Fetch(env, g, user, s, e, cap), Asked(env, g, user, s, e, cap);
      f.result.Err? ==>
        && |asked| == f.calls && LastFails(env, g, user, s, e, asked, f.result.fault)
        && GivenUp(env, g, user, s, e, asked)
  {
    FetchRests(env, g, user, s, e, cap);
  }

  lemma SameRows(a: seq<LogItem>, b: seq<LogItem>)
    requires multiset(a) == multiset(b)
    ensures forall r :: r in a <==> r in b
  {
    forall r ensures r in a <==> r in b {
      assert r in multiset(a) <==> r in multiset(b);
    }
  }

  // ---------------------------------------------------------------- true totals

  ghost predicate NonZeroIds(log: set<LogItem>) {
    forall r :: r in log ==> r.id != 0
  }

  /** During fetch `g` the log `snap` does not change, totals are true and pages hold
      only matching rows.  Pages may overlap, repeat, be short, or come in any order,
      and any call may fail. */
  ghost predicate CountHonest(env: Env, g: nat, snap: set<LogItem>) {
    && UniqueIds(snap) && NonZeroIds(snap)
    && forall n: nat, opt: LogOpt {:trigger env.fetch(g, n, opt)} ::
         var resp := env.fetch(g, n, opt);
         opt.page >= 1 && resp.Page? ==>
           && resp.total == |Matching(snap, opt.start, opt.end, opt.user)|
           && forall r :: r in resp.items ==> r in Matching(snap, opt.start, opt.end, opt.user)
  }

  lemma {:induction false} DistinctCount(s: seq<LogItem>)
    requires DistinctIds(s) && forall r :: r in s ==> r.id != 0
    ensures |set r | r in s| == |s|
  {
    if s == [] {
    } else {
      var front, last := s[..|s| - 1], s[|s| - 1];
      DistinctCount(front);
      assert (set r | r in s) == (set r | r in front) + {last};
      assert last !in front;
    }
  }

  lemma EnoughRowsAreAllRows(s: seq<LogItem>, rows: set<LogItem>)
    requires Sorted(s) && DistinctIds(s) && NonZeroIds(rows)
    requires forall r :: r in s ==> r in rows
    ensures |s| <= |rows|
    ensures |s| == |rows| <==> Lists(s, rows)
  {
    DistinctCount(s);
    var elems := set r | r in s;
    assert elems <= rows;
    SubsetSize(elems, rows);
    if |s| == |rows| {
      assert elems == rows;
      forall i, j | 0 <= i < j < |s| ensures Before(s[i], s[j]) {
        assert s[i] in s && s[i].id != s[j].id;
      }
      assert forall r :: r in s <==> r in elems;
    }
    if Lists(s, rows) {
      ListingSize(s, rows);
    }
  }

  lemma {:induction false} SubsetSize(a: set<LogItem>, b: set<LogItem>)
    requires a <= b
    ensures |a| <= |b|
    ensures |a| == |b| ==> a == b
  {
    assert b == a + (b - a);
    assert |b| == |a| + |b - a|;
  }

  /** Completeness by counting: with true totals, a segment is not counted as short
      exactly when its rows are the ordered listing of all matching rows. */
  lemma CompleteByCounting(env: Env, g: nat, user: string, s: int, e: int, cap: nat, snap: set<LogItem>)
    requires CountHonest(env, g, snap)
    ensures var f, m := Fetch(env, g, user, s, e, cap), Matching(snap, s, e, user);
      && (f.result.Split? ==> |m| > cap && s < e)
      && (f.result.Rows? ==>
            && (|m| <= cap || s >= e)
            && (forall r :: r in f.result.rows ==> r in m)
            && (!f.short <==> Lists(f.result.rows, m))
            && (!f.short <==> f.result.rows == Ordered(m)))
  {
    var f, m := Fetch(env, g, user, s, e, cap), Matching(snap, s, e, user);
    var t := Attempt(env, g, 0, LogOpt(1, s, e, user), 0);
    AttemptAsks(env, g, user, s, e, 1, []);
    if t.resp.Page? {
      assert t.resp.total == |m|;
    }
    if f.result.Rows? {
      AnyUpstream(env, g, user, s, e, cap);
      var rows := f.result.rows;
      forall r | r in rows ensures r in m {
        var asked := Asked(env, g, user, s, e, cap);
        assert Served(env, g, user, s, e, asked, r);
        var n :| 0 <= n < |asked| && asked[n] >= 1 &&
          var resp := env.fetch(g, n, LogOpt(asked[n], s, e, user)); resp.Page? && r in resp.items;
      }
      EnoughRowsAreAllRows(rows, m);
      OrderedExactly(rows, m);
    }
  }

  lemma OrderedExactly(s: seq<LogItem>, rows: set<LogItem>)
    requires UniqueIds(rows)
    ensures Lists(s, rows) <==> s == Ordered(rows)
  {
    OrderedLists(rows);
    if Lists(s, rows) {
      OrderedIs(s, rows);
    }
  }

  // ---------------------------------------------------------------- faithful paging

  /** `s` enumerates `rows`, each once, in some order (newest first in the real upstream). */
  ghost predicate Enumerates(s: seq<LogItem>, rows: set<LogItem>) {
    && (forall i, j :: 0 <= i < j < |s| ==> s[i] != s[j])
    && (forall r :: r in s <==> r in rows)
  }

  /** Page `page` (counted from 1) of an enumeration in pages of `per` rows. */
  function PageOf(all: seq<LogItem>, page: nat, per: nat): seq<LogItem>
    requires page >= 1
  {
    all[Min((page - 1) * per, |all|)..Min(page * per, |all|)]
  }

  /** The log is static, every call succeeds, and pages are slices of a fixed enumeration. */
  ghost predicate Serves(env: Env, log: set<LogItem>, order: (int, int, string) -> seq<LogItem>) {
    && UniqueIds(log) && NonZeroIds(log)
    && (forall s, e, u {:trigger order(s, e, u)} :: Enumerates(order(s, e, u), Matching(log, s, e, u)))
    && (forall g: nat, n: nat, opt: LogOpt {:trigger env.fetch(g, n, opt)} :: opt.page >= 1 ==>
          env.fetch(g, n, opt) == RightPage(order, opt, PAGE_SIZE))
  }

  ghost function RightPage(order: (int, int, string) -> seq<LogItem>, opt: LogOpt, per: nat): Response
    requires opt.page >= 1
  {
    var all := order(opt.start, opt.end, opt.user);
    Page(PageOf(all, opt.page, per), |all|)
  }

  /** The log is static and pages, of any length, are slices of a fixed enumeration; calls may
      fail, but in a way that may be repeated and never three times in a row. */
  ghost predicate Tolerates(env: Env, log: set<LogItem>, order: (int, int, string) -> seq<LogItem>, per: nat) {
    && per > 0 && UniqueIds(log) && NonZeroIds(log)
    && (forall s, e, u {:trigger order(s, e, u)} :: Enumerates(order(s, e, u), Matching(log, s, e, u)))
    && (forall g: nat, n: nat, opt: LogOpt {:trigger env.fetch(g, n, opt)} :: opt.page >= 1 ==>
          env.fetch(g, n, opt) == RightPage(order, opt, per) || Transient(env, g, n, opt))
    && (forall g: nat, n: nat, opt: LogOpt {:trigger Transient(env, g, n, opt)} :: opt.page >= 1 ==>
          !(Transient(env, g, n, opt) && Transient(env, g, n + 1, opt) && Transient(env, g, n + 2, opt)))
  }

  lemma ServesTolerates(env: Env, log: set<LogItem>, order: (int, int, string) -> seq<LogItem>)
    requires Serves(env, log, order)
    ensures Tolerates(env, log, order, PAGE_SIZE)
  {
    forall g: nat, n: nat, opt: LogOpt | opt.page >= 1 ensures !Transient(env, g, n, opt) {
      assert env.fetch(g, n, opt).Page?;
    }
  }

  lemma {:induction false} EnumerationSize(s: seq<LogItem>, rows: set<LogItem>)
    requires Enumerates(s, rows)
    ensures |s| == |rows|
  {
    if s == [] {
      assert forall r :: r in rows ==> r in s;
    } else {
      var front, last := s[..|s| - 1], s[|s| - 1];
      assert last in rows;
      forall r ensures r in front <==> r in rows - {last} {
        if r in rows - {last} {
          var i :| 0 <= i < |s| && s[i] == r;
          assert front[i] == r;
        }
      }
      EnumerationSize(front, rows - {last});
    }
  }

  lemma ToleratesIsHonest(env: Env, g: nat, log: set<LogItem>, order: (int, int, string) -> seq<LogItem>, per: nat)
    requires Tolerates(env, log, order, per)
    ensures CountHonest(env, g, log)
  {
    forall n: nat, opt: LogOpt | opt.page >= 1 && env.fetch(g, n, opt).Page?
      ensures env.fetch(g, n, opt).total == |Matching(log, opt.start, opt.end, opt.user)|
      ensures forall r :: r in env.fetch(g, n, opt).items ==> r in Matching(log, opt.start, opt.end, opt.user)
    {
      var all := order(opt.start, opt.end, opt.user);
      EnumerationSize(all, Matching(log, opt.start, opt.end, opt.user));
      assert forall r :: r in PageOf(all, opt.page, per) ==> r in all;
    }
  }

  lemma EnumerationIds(all: seq<LogItem>, log: set<LogItem>, s: int, e: int, user: string)
    requires UniqueIds(log) && Enumerates(all, Matching(log, s, e, user))
    ensures AllDistinctIds(all)
  {
    forall i, j | 0 <= i < j < |all| ensures all[i].id != all[j].id {
      assert all[i] in log && all[j] in log by {
        assert all[i] in Matching(log, s, e, user) && all[j] in Matching(log, s, e, user);
      }
    }
  }

  lemma AbsorbSlice(all: seq<LogItem>, a: nat, b: nat)
    requires AllDistinctIds(all) && a <= b <= |all|
    ensures Absorb(all[..a], all[a..b]) == all[..b]
  {
    AbsorbNew(all[..a], all[a..b]);
    assert all[..a] + all[a..b] == all[..b];
  }

  /** The calls that `pages` attempts make at most: one each when all are answered at once. */
  function Tries(quick: bool, pages: nat): nat {
    if quick then pages else 3 * pages
  }

  /** Every attempt of this fetch gets its page of `all`. */
  ghost predicate PagesThrough(env: Env, g: nat, user: string, s: int, e: int,
                               all: seq<LogItem>, per: nat, quick: bool) {
    forall n: nat, page: nat {:trigger Attempt(env, g, n, LogOpt(page, s, e, user), 0)} :: page >= 1 ==>
      var t := Attempt(env, g, n, LogOpt(page, s, e, user), 0);
      t.resp == Page(PageOf(all, page, per), |all|) && n < t.next <= n + Tries(quick, 1)
  }

  /** What is the same for every call: which rows there are. */
  lemma OrderIs(env: Env, user: string, s: int, e: int,
                log: set<LogItem>, order: (int, int, string) -> seq<LogItem>, per: nat)
    requires Tolerates(env, log, order, per)
    ensures AllDistinctIds(order(s, e, user))
    ensures |order(s, e, user)| == |Matching(log, s, e, user)|
  {
    EnumerationIds(order(s, e, user), log, s, e, user);
    EnumerationSize(order(s, e, user), Matching(log, s, e, user));
  }

  lemma ServesPages(env: Env, g: nat, user: string, s: int, e: int,
                    log: set<LogItem>, order: (int, int, string) -> seq<LogItem>)
    requires Serves(env, log, order)
    ensures PagesThrough(env, g, user, s, e, order(s, e, user), PAGE_SIZE, true)
  {
  }

  /** An attempt outlasts up to two failures. */
  lemma AttemptTolerates(env: Env, g: nat, n: nat, opt: LogOpt,
                         log: set<LogItem>, order: (int, int, string) -> seq<LogItem>, per: nat)
    requires Tolerates(env, log, order, per) && opt.page >= 1
    ensures var t := Attempt(env, g, n, opt, 0); t.resp == RightPage(order, opt, per) && n < t.next <= n + 3
  {
    RetryPersists(env, g, n, opt, 0);
    var c: nat := if !Transient(env, g, n, opt) then n else if !Transient(env, g, n + 1, opt) then n + 1 else n + 2;
    assert !Transient(env, g, c, opt) && AllTransient(env, g, n, c, opt);
    assert env.fetch(g, c, opt) == RightPage(order, opt, per);
  }

  lemma ToleratesPages(env: Env, g: nat, user: string, s: int, e: int,
                       log: set<LogItem>, order: (int, int, string) -> seq<LogItem>, per: nat)
    requires Tolerates(env, log, order, per)
    ensures PagesThrough(env, g, user, s, e, order(s, e, user), per, false)
  {
    forall n: nat, page: nat | page >= 1
      ensures var t := Attempt(env, g, n, LogOpt(page, s, e, user), 0);
        t.resp == Page(PageOf(order(s, e, user), page, per), |order(s, e, user)|) && n < t.next <= n + 3
    {
      AttemptTolerates(env, g, n, LogOpt(page, s, e, user), log, order, per);
    }
  }

  function PagesFor(rows: nat, per: nat): nat
    requires per > 0
  {
    (rows + per - 1) / per
  }

  /** Pages of a window that is not split: one to probe, and further ones for more rows. */
  function LeafPages(rows: nat, per: nat): (pages: nat)
    requires per > 0
    ensures pages >= 1
  {
    if rows == 0 then 1
    else
      PagesForIs(rows, per, 1);
      PagesFor(rows, per)
  }

  function LeafCalls(rows: nat): nat {
    LeafPages(rows, PAGE_SIZE)
  }

  /** What the pages before `page` hold together. */
  function Had(all: seq<LogItem>, page: nat, per: nat): seq<LogItem>
    requires page >= 1
  {
    all[..Min((page - 1) * per, |all|)]
  }

  lemma AbsorbPage(all: seq<LogItem>, page: nat, per: nat)
    requires AllDistinctIds(all) && page >= 1
    ensures Absorb(Had(all, page, per), PageOf(all, page, per)) == Had(all, page + 1, per)
  {
    assert page * per == (page - 1) * per + per;
    AbsorbSlice(all, Min((page - 1) * per, |all|), Min(page * per, |all|));
  }

  lemma PagesForIs(rows: nat, per: nat, page: nat)
    requires per > 0 && page >= 1
    ensures page <= PagesFor(rows, per) <==> (page - 1) * per < rows
  {
    var q := PagesFor(rows, per);
    assert q * per <= rows + per - 1 < q * per + per;
    if page <= q {
      Scaled(page, q, per);
      assert (page - 1) * per == page * per - per;
    } else {
      Scaled(q, page - 1, per);
    }
  }

  lemma Scaled(a: nat, b: nat, k: nat)
    requires a <= b
    ensures a * k <= b * k
  {
  }

  /** The paging loop goes on exactly up to the last page. */
  lemma MorePages(all: seq<LogItem>, page: nat, per: nat)
    requires 2 <= page && per > 0
    ensures |Had(all, page, per)| < |all| <==> page <= PagesFor(|all|, per)
    ensures page <= PagesFor(|all|, per) ==> PageOf(all, page, per) != []
    ensures page > PagesFor(|all|, per) ==> Had(all, page, per) == all
  {
    PagesForIs(|all|, per, page);
    assert page * per == (page - 1) * per + per;
  }

  lemma PageTurns(env: Env, g: nat, n: nat, user: string, s: int, e: int, total: nat,
                  rows: seq<LogItem>, page: nat, maxPage: nat, items: seq<LogItem>, next: nat)
    requires |rows| < total && page <= maxPage && items != []
    requires Attempt(env, g, n, LogOpt(page, s, e, user), 0) == Tried(Page(items, total), next)
    ensures Pages(env, g, n, user, s, e, total, rows, page, maxPage)
         == Pages(env, g, next, user, s, e, total, Absorb(rows, items), page + 1, maxPage)
  {
  }

  /** All rows, after `k` attempts from call `n` on. */
  ghost predicate GotAll(p: Paged, all: seq<LogItem>, n: nat, k: nat, quick: bool) {
    p.Got? && p.rows == all && n + k <= p.next <= n + Tries(quick, k)
  }

  lemma {:induction false} PagesExact(env: Env, g: nat, n: nat, user: string, s: int, e: int,
                                      all: seq<LogItem>, page: nat, maxPage: nat, per: nat, quick: bool)
    requires per > 0 && PagesThrough(env, g, user, s, e, all, per, quick) && AllDistinctIds(all)
    requires 2 <= page <= PagesFor(|all|, per) + 1 <= maxPage + 1
    ensures GotAll(Pages(env, g, n, user, s, e, |all|, Had(all, page, per), page, maxPage),
                   all, n, PagesFor(|all|, per) + 1 - page, quick)
    decreases maxPage + 1 - page
  {
    MorePages(all, page, per);
    if page <= PagesFor(|all|, per) {
      var t := Attempt(env, g, n, LogOpt(page, s, e, user), 0);
      AbsorbPage(all, page, per);
      PageTurns(env, g, n, user, s, e, |all|, Had(all, page, per), page, maxPage, PageOf(all, page, per), t.next);
      PagesExact(env, g, t.next, user, s, e, all, page + 1, maxPage, per, quick);
    } else {
      assert Pages(env, g, n, user, s, e, |all|, all, page, maxPage) == Got(all, n);
    }
  }

  lemma AfterFirstPage(env: Env, g: nat, n: nat, user: string, s: int, e: int, all: seq<LogItem>, per: nat, quick: bool)
    requires per > 0 && PagesThrough(env, g, user, s, e, all, per, quick) && AllDistinctIds(all)
    ensures GotAll(Pages(env, g, n, user, s, e, |all|, Absorb([], PageOf(all, 1, per)), 2,
                         MaxPage(|all|, PageOf(all, 1, per))),
                   all, n, LeafPages(|all|, per) - 1, quick)
  {
    var first := PageOf(all, 1, per);
    assert Had(all, 1, per) == [];
    AbsorbPage(all, 1, per);
    if all != [] {
      EnoughPages(|all|, per, PerPage(first));
      PagesExact(env, g, n, user, s, e, all, 2, MaxPage(|all|, first), per, quick);
    }
  }

  lemma FetchUnfolds(env: Env, g: nat, user: string, s: int, e: int, cap: nat,
                     first: seq<LogItem>, n: nat, rows: seq<LogItem>, p: Paged)
    requires Attempt(env, g, 0, LogOpt(1, s, e, user), 0) == Tried(Page(first, |rows|), n)
    requires p == Pages(env, g, n, user, s, e, |rows|, Absorb([], first), 2, MaxPage(|rows|, first))
    requires p.Got? && p.rows == rows
    ensures Fetch(env, g, user, s, e, cap) ==
        if |rows| > cap && e > s then Fetched(Split, n, false)
        else Fetched(Rows(SortRows(rows)), p.next, false)
  {
  }

  /** Counting pages by the length of the first one never stops too early. */
  lemma EnoughPages(total: nat, per: nat, first: nat)
    requires total > 0 && per > 0 && first == Min(total, per)
    ensures 1 <= PagesFor(total, per) <= total / first + 3
  {
    PagesForIs(total, per, 1);
    if total >= per {
      assert (total + per - 1) / per <= total / per + 1 by {
        var q := total / per;
        assert total < q * per + per;
        PagesForIs(total, per, q + 2);
        assert (q + 2 - 1) * per == q * per + per;
      }
    } else {
      PagesForIs(total, per, 2);
    }
  }

  /** How the fetch of a window ends when every attempt gets its page. */
  lemma FetchThrough(env: Env, g: nat, user: string, s: int, e: int, cap: nat,
                     all: seq<LogItem>, per: nat, quick: bool)
    requires per > 0 && PagesThrough(env, g, user, s, e, all, per, quick) && AllDistinctIds(all)
    ensures var f := Fetch(env, g, user, s, e, cap);
      && !f.short
      && (if |all| > cap && e > s then f.result == Split && 1 <= f.calls <= Tries(quick, 1)
          else f.result == Rows(SortRows(all))
               && LeafPages(|all|, per) <= f.calls <= Tries(quick, LeafPages(|all|, per)))
  {
    var t := Attempt(env, g, 0, LogOpt(1, s, e, user), 0);
    var first := PageOf(all, 1, per);
    var p := Pages(env, g, t.next, user, s, e, |all|, Absorb([], first), 2, MaxPage(|all|, first));
    AfterFirstPage(env, g, t.next, user, s, e, all, per, quick);
    FetchUnfolds(env, g, user, s, e, cap, first, t.next, all, p);
  }

  /** Against a faithful upstream a segment fetch never fails and never comes up short: it
      is cut exactly when it holds more than `cap` rows and is longer than a second, and
      otherwise yields the ordered rows in one call per page. */
  lemma ExactFetch(env: Env, g: nat, user: string, s: int, e: int, cap: nat,
                   log: set<LogItem>, order: (int, int, string) -> seq<LogItem>)
    requires Serves(env, log, order)
    ensures var m := Matching(log, s, e, user);
      Fetch(env, g, user, s, e, cap) ==
        if |m| > cap && e > s then Fetched(Split, 1, false)
        else Fetched(Rows(Ordered(m)), LeafCalls(|m|), false)
  {
    ServesPages(env, g, user, s, e, log, order);
    ServesTolerates(env, log, order);
    OrderIs(env, user, s, e, log, order, PAGE_SIZE);
    FetchThrough(env, g, user, s, e, cap, order(s, e, user), PAGE_SIZE, true);
    ToleratesIsHonest(env, g, log, order, PAGE_SIZE);
    CompleteByCounting(env, g, user, s, e, cap, log);
  }

  /** The same against an upstream that serves pages of any length and fails now and then, but
      never three times in a row: only the number of calls grows, at most threefold. */
  lemma TolerantFetch(env: Env, g: nat, user: string, s: int, e: int, cap: nat,
                      log: set<LogItem>, order: (int, int, string) -> seq<LogItem>, per: nat)
    requires Tolerates(env, log, order, per)
    ensures var m, f := Matching(log, s, e, user), Fetch(env, g, user, s, e, cap);
      && !f.short
      && (if |m| > cap && e > s then f.result == Split && f.calls <= 3
          else f.result == Rows(Ordered(m)) && f.calls <= 3 * LeafPages(|m|, per))
  {
    ToleratesPages(env, g, user, s, e, log, order, per);
    OrderIs(env, user, s, e, log, order, per);
    FetchThrough(env, g, user, s, e, cap, order(s, e, user), per, false);
    ToleratesIsHonest(env, g, log, order, per);
    CompleteByCounting(env, g, user, s, e, cap, log);
  }
}
