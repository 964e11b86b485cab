/** What the fetch loop guarantees as a whole, from the facts every run establishes. */
module CollectTheorems {
  import opened Basics
  import opened LogRows
  import opened SegmentFetch
  import opened SegmentLaws
  import opened Segments
  import opened CollectLaws
  import opened CollectRows
  import opened RequestBound
  import opened CollectLoop
  import Cst

  /** Prefix safety and refinement: against a static log with true totals, and unless a
      segment was counted as short, a run emits an initial run of the targets' ordered
      rows, whatever stopped it, and all of them if nothing did.  Neither the window cap
      nor the concurrency shows in the result. */
  lemma EmitsOrderedWindow(p: Params, env: Env, oc: Outcomes, log: set<LogItem>, failure: Option<Failure>,
                           out: seq<Seg>, rest: seq<Seg>, c: Course)
    requires Runs(oc, env, p.Cap()) && Stops(p, env, oc, failure, out, rest, c) && AllWhole(oc, c.Made(), out)
    requires UniqueIds(log) && forall g: nat :: CountHonest(env, g, log)
    ensures RowsOf(out) <= Windows(log, AreaOf(p), 0)
    ensures failure.None? ==> RowsOf(out) == Windows(log, AreaOf(p), 0)
    ensures |RowsOf(out)| <= p.MaxTotal()
  {
    forall sg | sg in out ensures ExactRows(log, sg) {
      WholeIsExact(oc, env, p.Cap(), log, c.Made(), sg);
    }
    TiledRows(log, AreaOf(p), out, rest);
  }

  lemma SettledFilled(oc: Outcomes, log: set<LogItem>, cap: nat, made: seq<Seg>, sg: Seg)
    requires Settles(oc, log, cap) && Filled(oc, made, sg)
    ensures ExactRows(log, sg)
  {
    var g: nat :| FilledBy(oc, made, g, sg);
    assert oc(g, sg.user, sg.s, sg.e).result == ExactOutcome(log, sg.user, sg.s, sg.e, cap).result;
  }

  lemma SettledRunSucceeds(p: Params, env: Env, oc: Outcomes, log: set<LogItem>,
                           failure: Option<Failure>, out: seq<Seg>, rest: seq<Seg>, c: Course)
    requires Stops(p, env, oc, failure, out, rest, c) && Settles(oc, log, p.Cap())
    requires forall r: nat :: !env.stop(r)
    requires forall k: nat, b: nat :: env.write(k, b)
    ensures failure.None? <==> |Windows(log, AreaOf(p), 0)| <= p.MaxTotal()
    ensures failure.None? ==> RowsOf(out) == Windows(log, AreaOf(p), 0)
    ensures failure.Some? ==> failure.value == RowLimit && RowsOf(out) < Windows(log, AreaOf(p), 0)
  {
    assert forall sg :: sg in out ==> sg in out + rest;
    forall sg | sg in out ensures ExactRows(log, sg) {
      SettledFilled(oc, log, p.Cap(), c.Made(), sg);
    }
    TiledRows(log, AreaOf(p), out, rest);
    SettlesHasNoFault(oc, log, p.Cap(), c.Made(), 0);
    if failure.Some? {
      assert rest[0] in out + rest;
      SettledFilled(oc, log, p.Cap(), c.Made(), rest[0]);
      NextRows(log, AreaOf(p), out, rest);
    }
  }

  lemma NextRows(log: set<LogItem>, a: Area, out: seq<Seg>, rest: seq<Seg>)
    requires UniqueIds(log) && Tiles(a, out + rest) && rest != []
    requires ExactRows(log, rest[0]) && forall sg :: sg in out ==> ExactRows(log, sg)
    ensures RowsOf(out) + rest[0].rows <= Windows(log, a, 0)
  {
    var next := out + [rest[0]];
    assert next + rest[1..] == out + rest;
    TiledRows(log, a, next, rest[1..]);
    RowsSnoc(out, rest[0]);
  }

  /** With an upstream that serves a static log, in pages of any length, and fails no page three
      times in a row, no cancellation and a working store, the run succeeds exactly when the
      window has no more rows than the limit, and then emits the bisect-or-fetch rows of
      every target; otherwise it stops short of all rows. */
  lemma FaithfulRunSucceeds(p: Params, env: Env, oc: Outcomes, log: set<LogItem>,
                            order: (int, int, string) -> seq<LogItem>, per: nat,
                            failure: Option<Failure>, out: seq<Seg>, rest: seq<Seg>, c: Course)
    requires Runs(oc, env, p.Cap()) && Stops(p, env, oc, failure, out, rest, c)
    requires Tolerates(env, log, order, per)
    requires forall r: nat :: !env.stop(r)
    requires forall k: nat, b: nat :: env.write(k, b)
    ensures failure.None? <==> |Windows(log, AreaOf(p), 0)| <= p.MaxTotal()
    ensures failure.None? ==> RowsOf(out) == Windows(log, AreaOf(p), 0) == BisectAll(log, AreaOf(p), 0, p.Cap())
    ensures failure.Some? ==> failure.value == RowLimit && RowsOf(out) < Windows(log, AreaOf(p), 0)
  {
    ToleratesSettles(oc, env, p.Cap(), log, order, per);
    SettledRunSucceeds(p, env, oc, log, failure, out, rest, c);
    BisectAllIsWindows(log, AreaOf(p), 0, p.Cap());
  }

  /** The recursive specification of a whole run. */
  ghost function BisectAll(log: set<LogItem>, a: Area, u: nat, cap: nat): seq<LogItem>
    requires UniqueIds(log)
    decreases |a.users| - u
  {
    if u >= |a.users| then [] else Bisect(ListingOf(log, a.users[u]), a.s, a.e, cap) + BisectAll(log, a, u + 1, cap)
  }

  /** Bisect-or-fetch, at any window cap, is the plain ordered select of every target. */
  lemma {:induction false} BisectAllIsWindows(log: set<LogItem>, a: Area, u: nat, cap: nat)
    requires UniqueIds(log)
    ensures BisectAll(log, a, u, cap) == Windows(log, a, u)
    decreases |a.users| - u
  {
    if u < |a.users| {
      BisectIsOrdered(log, a.users[u], a.s, a.e, cap);
      BisectAllIsWindows(log, a, u + 1, cap);
    }
  }

  // ---------------------------------------------------------------- requests

  lemma {:induction false} DoneOwesNothing(log: set<LogItem>, cap: nat, segs: seq<Seg>)
    requires AllDone(segs)
    ensures Total(CallsLeft(log, cap), segs) == 0 && Total(CutsLeft(log, cap), segs) == 0
    decreases |segs|
  {
    if segs != [] {
      DoneOwesNothing(log, cap, segs[1..]);
    }
  }

  lemma SizeStep(log: set<LogItem>, a: Area, c: Cursor, sg: Seg)
    requires UniqueIds(log) && Advance(a, c, sg).Some?
    ensures SizeOf(log)(sg) + |Ahead(log, a, Advance(a, c, sg).value)| == |Ahead(log, a, c)|
  {
    var rows := Ordered(Matching(log, sg.s, sg.e, sg.user));
    OrderedLists(Matching(log, sg.s, sg.e, sg.user));
    ListingSize(rows, Matching(log, sg.s, sg.e, sg.user));
    AdvanceRows(log, a, c, sg.(rows := rows));
  }

  lemma {:induction false} TiledSize(log: set<LogItem>, a: Area, c: Cursor, segs: seq<Seg>)
    requires UniqueIds(log) && After(a, c, segs).Some?
    ensures Total(SizeOf(log), segs) + |Ahead(log, a, After(a, c, segs).value)| == |Ahead(log, a, c)|
    decreases |segs|
  {
    if segs != [] {
      SizeStep(log, a, c, segs[0]);
      TiledSize(log, a, Advance(a, c, segs[0]).value, segs[1..]);
    }
  }

  lemma {:induction false} TiledWithinDays(a: Area, c: Cursor, segs: seq<Seg>)
    requires After(a, c, segs).Some?
    ensures forall sg :: sg in segs ==> sg.s <= sg.e && Cst.DayOf(sg.s) == Cst.DayOf(sg.e)
    decreases |segs|
  {
    if segs != [] {
      TiledWithinDays(a, Advance(a, c, segs[0]).value, segs[1..]);
      assert forall sg :: sg in segs <==> sg == segs[0] || sg in segs[1..];
    }
  }

  /** The cost of the initial list over D day segments and R rows. */
  lemma InitialCost(p: Params, log: set<LogItem>)
    requires UniqueIds(log)
    ensures var init, rows := AllDaySegs(p.Targets(), p.start, p.end), |Windows(log, AreaOf(p), 0)|;
      var calls, cuts := Total(CallsLeft(log, p.Cap()), init), Total(CutsLeft(log, p.Cap()), init);
      cuts <= CutBudget(rows, p.Cap(), 17) && calls <= 2 * cuts + |init| + rows / PAGE_SIZE
  {
    var a, init := AreaOf(p), AllDaySegs(p.Targets(), p.start, p.end);
    InitialTiles(p);
    if a.s > a.e {
      EmptyWindows(log, a, 0);
    } else {
      TiledSize(log, a, Cursor(0, a.s), init);
      WindowsAhead(log, a, 0);
      TiledWithinDays(a, Cursor(0, a.s), init);
      ListBounded(log, p.Cap(), init);
    }
  }

  /** A run whose last round is not yet settled has made the fetches of one more round. */
  lemma MadePaid(log: set<LogItem>, cap: nat, oc: Outcomes, conc: nat, init: seq<Seg>, c: Course, segs: seq<Seg>)
      returns (list: seq<Seg>)
    requires Exact(oc, log, cap) && Reached(oc, conc, init, c, segs)
    ensures Paid(log, cap, init, list, Spent(oc, c.Made())) && (c.last == [] ==> list == segs)
  {
    ReachedIsPaid(log, cap, oc, conc, init, c.rounds);
    list := segs;
    if c.last == [] {
      assert c.Made() == c.settled;
    } else {
      RoundKeepsPaid(log, cap, init, oc, c.settled, segs, conc);
      list := Round(oc, |c.settled|, segs, conc, 0);
    }
  }

  /** The request bound, at any time of any run against a faithful upstream, however it ends:
      a window of D day segments and R rows takes at most 17 * (R / (cap + 1)) bisections, and
      at most two calls per bisection made, one per day segment and one per full page. */
  lemma RequestsBounded(p: Params, oc: Outcomes, log: set<LogItem>, c: Course, segs: seq<Seg>)
    requires Exact(oc, log, p.Cap())
    requires Reached(oc, p.Conc(), AllDaySegs(p.Targets(), p.start, p.end), c, segs)
    ensures var days, rows := |AllDaySegs(p.Targets(), p.start, p.end)|, |Windows(log, AreaOf(p), 0)|;
      var t := Spent(oc, c.Made());
      && t.splits <= CutBudget(rows, p.Cap(), 17)
      && t.calls <= 2 * t.splits + days + rows / PAGE_SIZE
  {
    InitialCost(p, log);
    var list := MadePaid(log, p.Cap(), oc, p.Conc(), AllDaySegs(p.Targets(), p.start, p.end), c, segs);
    LeftAtLeast(log, p.Cap(), list);
  }

  /** A run that has finished every segment has made one call per bisection and per page,
      and every bisection that the initial list asks for. */
  lemma CompleteRunCost(p: Params, oc: Outcomes, log: set<LogItem>, c: Course, segs: seq<Seg>)
    requires Exact(oc, log, p.Cap()) && AllDone(segs) && c.last == []
    requires Reached(oc, p.Conc(), AllDaySegs(p.Targets(), p.start, p.end), c, segs)
    ensures var init, t := AllDaySegs(p.Targets(), p.start, p.end), Spent(oc, c.Made());
      t.calls == Total(CallsLeft(log, p.Cap()), init) && t.splits == Total(CutsLeft(log, p.Cap()), init)
  {
    var list := MadePaid(log, p.Cap(), oc, p.Conc(), AllDaySegs(p.Targets(), p.start, p.end), c, segs);
    DoneOwesNothing(log, p.Cap(), segs);
  }

  /** How many of the first `i` segments end their target's window. */
  function Ends(a: Area, segs: seq<Seg>, i: nat): nat
    requires i <= |segs|
  {
    if i == 0 then 0 else (if segs[0].e == a.e then 1 else 0) + Ends(a, segs[1..], i - 1)
  }

  /** Segment `i` stays within its day and belongs to the target reached before it. */
  ghost predicate Belongs(a: Area, c: Cursor, segs: seq<Seg>, i: nat)
    requires i < |segs|
  {
    var u := c.user + Ends(a, segs, i);
    && u < |a.users| && segs[i].user == a.users[u]
    && segs[i].s <= segs[i].e <= a.e && Cst.DayOf(segs[i].s) == Cst.DayOf(segs[i].e)
  }

  /** Segment `i + 1` starts right behind segment `i`, or at the start of the window. */
  ghost predicate Meets(a: Area, segs: seq<Seg>, i: nat)
    requires i + 1 < |segs|
  {
    segs[i + 1].s == if segs[i].e == a.e then a.s else segs[i].e + 1
  }

  /** The tiling at every loop head, read off directly: segments lie within days, meet
      without gap or overlap, and at the end of a window the next target's begins. */
  lemma {:induction false} TilesMeet(a: Area, c: Cursor, segs: seq<Seg>)
    requires After(a, c, segs).Some?
    ensures forall i :: 0 <= i < |segs| ==> Belongs(a, c, segs, i)
    ensures forall i :: 0 <= i < |segs| - 1 ==> Meets(a, segs, i)
    decreases |segs|
  {
    if segs != [] {
      var c' := Advance(a, c, segs[0]).value;
      TilesMeet(a, c', segs[1..]);
      forall i | 0 <= i < |segs| ensures Belongs(a, c, segs, i) {
        if i > 0 {
          assert segs[i] == segs[1..][i - 1] && Belongs(a, c', segs[1..], i - 1);
        }
      }
      forall i | 0 <= i < |segs| - 1 ensures Meets(a, segs, i) {
        if i > 0 {
          assert segs[i] == segs[1..][i - 1] && segs[i + 1] == segs[1..][i] && Meets(a, segs[1..], i - 1);
        }
      }
    }
  }
}
