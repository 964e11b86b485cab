/** The rows of a list of segments, compared with the rows of the requested window. */
module CollectRows {
  import opened Basics
  import opened LogRows
  import opened SegmentFetch
  import opened SegmentLaws
  import opened Segments
  import opened CollectLaws

  /** What emitting the segments in order hands to the sink. */
  ghost function RowsOf(segs: seq<Seg>): seq<LogItem> {
    if segs == [] then [] else segs[0].rows + RowsOf(segs[1..])
  }

  lemma {:induction false} RowsSnoc(segs: seq<Seg>, sg: Seg)
    ensures RowsOf(segs + [sg]) == RowsOf(segs) + sg.rows
    decreases |segs|
  {
    if segs == [] {
      assert [sg][1..] == [];
      assert segs + [sg] == [sg];
    } else {
      assert (segs + [sg])[0] == segs[0] && (segs + [sg])[1..] == segs[1..] + [sg];
      RowsSnoc(segs[1..], sg);
    }
  }

  lemma {:induction false} RowsMember(segs: seq<Seg>, r: LogItem)
    ensures r in RowsOf(segs) <==> exists sg :: sg in segs && r in sg.rows
    decreases |segs|
  {
    if segs != [] {
      RowsMember(segs[1..], r);
      assert forall sg :: sg in segs <==> sg == segs[0] || sg in segs[1..];
    }
  }

  // ---------------------------------------------------------------- a static log

  /** The whole export from target number `u` on: each target's rows in order. */
  ghost function Windows(log: set<LogItem>, a: Area, u: nat): seq<LogItem>
    requires UniqueIds(log)
    decreases |a.users| - u
  {
    if u >= |a.users| then []
    else Ordered(Matching(log, a.s, a.e, a.users[u])) + Windows(log, a, u + 1)
  }

  /** The rows still to come at a cursor. */
  ghost function Ahead(log: set<LogItem>, a: Area, c: Cursor): seq<LogItem>
    requires UniqueIds(log)
  {
    if c.user >= |a.users| then []
    else Ordered(Matching(log, c.next, a.e, a.users[c.user])) + Windows(log, a, c.user + 1)
  }

  lemma WindowsAhead(log: set<LogItem>, a: Area, u: nat)
    requires UniqueIds(log)
    ensures Ahead(log, a, Cursor(u, a.s)) == Windows(log, a, u)
  {
  }

  ghost predicate ExactRows(log: set<LogItem>, sg: Seg)
    requires UniqueIds(log)
  {
    sg.rows == Ordered(Matching(log, sg.s, sg.e, sg.user))
  }

  lemma AheadWithin(log: set<LogItem>, a: Area, c: Cursor, m: int)
    requires UniqueIds(log) && c.user < |a.users| && c.next <= m < a.e
    ensures var now := Ordered(Matching(log, c.next, m, a.users[c.user]));
      now + Ahead(log, a, Cursor(c.user, m + 1)) == Ahead(log, a, c)
  {
    var u := a.users[c.user];
    SplitWindow(log, c.next, m, a.e, u);
    Regroup(Ordered(Matching(log, c.next, m, u)), Ordered(Matching(log, m + 1, a.e, u)), Windows(log, a, c.user + 1));
  }

  lemma Regroup(x: seq<LogItem>, y: seq<LogItem>, z: seq<LogItem>)
    ensures x + (y + z) == (x + y) + z
  {
  }

  lemma AdvanceRows(log: set<LogItem>, a: Area, c: Cursor, sg: Seg)
    requires UniqueIds(log) && ExactRows(log, sg) && Advance(a, c, sg).Some?
    ensures sg.rows + Ahead(log, a, Advance(a, c, sg).value) == Ahead(log, a, c)
  {
    if sg.e == a.e {
      WindowsAhead(log, a, c.user + 1);
    } else {
      AheadWithin(log, a, c, sg.e);
    }
  }

  lemma {:induction false} EmittedAhead(log: set<LogItem>, a: Area, c: Cursor, segs: seq<Seg>)
    requires UniqueIds(log) && After(a, c, segs).Some?
    requires forall sg :: sg in segs ==> ExactRows(log, sg)
    ensures RowsOf(segs) + Ahead(log, a, After(a, c, segs).value) == Ahead(log, a, c)
    decreases |segs|
  {
    if segs == [] {
      assert RowsOf(segs) == [];
    } else {
      var c' := Advance(a, c, segs[0]).value;
      EmittedAhead(log, a, c', segs[1..]);
      AdvanceRows(log, a, c, segs[0]);
      var x := Ahead(log, a, After(a, c', segs[1..]).value);
      Regroup(segs[0].rows, RowsOf(segs[1..]), x);
    }
  }

  lemma {:induction false} EmptyWindows(log: set<LogItem>, a: Area, u: nat)
    requires UniqueIds(log) && a.s > a.e
    ensures Windows(log, a, u) == []
    decreases |a.users| - u
  {
    if u < |a.users| {
      EmptyWindows(log, a, u + 1);
      assert Matching(log, a.s, a.e, a.users[u]) == {};
    }
  }

  /** Tiling segments with exact rows: an initial run of them holds an initial run of the
      export, never with a gap, and all of them hold all of it. */
  lemma TiledRows(log: set<LogItem>, a: Area, out: seq<Seg>, rest: seq<Seg>)
    requires UniqueIds(log) && Tiles(a, out + rest)
    requires forall sg :: sg in out ==> ExactRows(log, sg)
    ensures RowsOf(out) <= Windows(log, a, 0)
    ensures rest == [] ==> RowsOf(out) == Windows(log, a, 0)
  {
    if a.s > a.e {
      assert out + rest == [] && out == [];
      EmptyWindows(log, a, 0);
    } else {
      AfterConcat(a, Cursor(0, a.s), out, rest);
      EmittedAhead(log, a, Cursor(0, a.s), out);
      WindowsAhead(log, a, 0);
      if rest == [] {
        assert out + rest == out;
      }
    }
  }

  /** With a static log and true totals, a segment not counted as short has exact rows. */
  lemma WholeIsExact(oc: Outcomes, env: Env, cap: nat, log: set<LogItem>, made: seq<Seg>, sg: Seg)
    requires Runs(oc, env, cap) && Whole(oc, made, sg)
    requires forall g: nat :: CountHonest(env, g, log)
    ensures UniqueIds(log) && ExactRows(log, sg)
  {
    var g: nat :| FilledBy(oc, made, g, sg) && !oc(g, sg.user, sg.s, sg.e).short;
    assert oc(g, sg.user, sg.s, sg.e) == Fetch(env, g, sg.user, sg.s, sg.e, cap);
    assert CountHonest(env, g, log);
    CompleteByCounting(env, g, sg.user, sg.s, sg.e, cap, log);
  }

  // ---------------------------------------------------------------- a growing log

  const LATENESS := 300

  /** Fetch `g` sees the snapshot `snap(g)` of a growing log: only rows of the log, and all
      rows written more than LATENESS seconds before `now`, the time the sync started. */
  ghost predicate Observes(env: Env, snap: nat -> set<LogItem>, log: set<LogItem>, now: int) {
    && UniqueIds(log) && NonZeroIds(log)
    && forall g: nat {:trigger snap(g)} ::
         && CountHonest(env, g, snap(g))
         && snap(g) <= log
         && forall r :: r in log && r.createdAt + LATENESS <= now ==> r in snap(g)
  }

  lemma FilledFromLog(oc: Outcomes, env: Env, cap: nat, snap: nat -> set<LogItem>, log: set<LogItem>, now: int,
                      made: seq<Seg>, sg: Seg)
    requires Runs(oc, env, cap) && Observes(env, snap, log, now) && Filled(oc, made, sg)
    ensures forall r :: r in sg.rows ==> r in log && sg.s <= r.createdAt <= sg.e
  {
    var g: nat :| FilledBy(oc, made, g, sg);
    assert oc(g, sg.user, sg.s, sg.e) == Fetch(env, g, sg.user, sg.s, sg.e, cap);
    assert CountHonest(env, g, snap(g));
    CompleteByCounting(env, g, sg.user, sg.s, sg.e, cap, snap(g));
  }

  lemma WholeHoldsSettled(oc: Outcomes, env: Env, cap: nat, snap: nat -> set<LogItem>, log: set<LogItem>, now: int,
                          made: seq<Seg>, sg: Seg, r: LogItem)
    requires Runs(oc, env, cap) && Observes(env, snap, log, now) && Whole(oc, made, sg)
    requires r in log && r.createdAt + LATENESS <= now && sg.s <= r.createdAt <= sg.e && sg.user == ""
    ensures r in sg.rows
  {
    var g: nat :| FilledBy(oc, made, g, sg) && !oc(g, sg.user, sg.s, sg.e).short;
    assert oc(g, sg.user, sg.s, sg.e) == Fetch(env, g, sg.user, sg.s, sg.e, cap);
    assert CountHonest(env, g, snap(g));
    CompleteByCounting(env, g, sg.user, sg.s, sg.e, cap, snap(g));
    assert r in Matching(snap(g), sg.s, sg.e, sg.user);
  }

  /** Every second of a whole-site window lies in one of the tiling segments. */
  lemma {:induction false} SecondCovered(a: Area, c: Cursor, segs: seq<Seg>, ts: int) returns (sg: Seg)
    requires a.users == [""] && c.user == 0 && After(a, c, segs) == Some(Cursor(1, a.s))
    requires c.next <= ts <= a.e
    ensures sg in segs && sg.user == "" && sg.s <= ts <= sg.e
    decreases |segs|
  {
    sg := segs[0];
    if ts > sg.e {
      sg := SecondCovered(a, Advance(a, c, sg).value, segs[1..], ts);
    }
  }

  /** Filled segments that tile a whole-site window hold its rows in strictly ascending order. */
  lemma {:induction false} FilledAscend(a: Area, c: Cursor, segs: seq<Seg>)
    requires a.users == [""] && c.user == 0 && After(a, c, segs).Some?
    requires forall sg :: sg in segs ==> StrictlySorted(sg.rows)
    requires forall sg, r :: sg in segs && r in sg.rows ==> sg.s <= r.createdAt <= sg.e
    ensures StrictlySorted(RowsOf(segs))
    ensures forall r :: r in RowsOf(segs) ==> c.next <= r.createdAt <= a.e
    decreases |segs|
  {
    if segs != [] {
      var sg, rest := segs[0], segs[1..];
      var c' := Advance(a, c, sg).value;
      if c'.user == 0 {
        FilledAscend(a, c', rest);
      } else {
        NoneLeft(a, c', rest);
      }
      var x, y := sg.rows, RowsOf(rest);
      forall i, j | 0 <= i < j < |x + y| ensures Before((x + y)[i], (x + y)[j]) {
        if i < |x| <= j {
          assert x[i] in sg.rows && y[j - |x|] in y;
        }
      }
    }
  }

  lemma NoneLeft(a: Area, c: Cursor, segs: seq<Seg>)
    requires c.user >= |a.users| && After(a, c, segs).Some?
    ensures segs == []
  {
  }

  /** Rows in strictly ascending order that all belong to a set are at most as many. */
  lemma AscendingFits(s: seq<LogItem>, rows: set<LogItem>)
    requires StrictlySorted(s) && forall r :: r in s ==> r in rows
    ensures |s| <= |rows|
  {
    var elems := set r | r in s;
    ListingSize(s, elems);
    SubsetSize(elems, rows);
  }

  /** A segment filled from a growing log lists its rows strictly. */
  lemma FilledStrictly(oc: Outcomes, env: Env, cap: nat, snap: nat -> set<LogItem>, log: set<LogItem>, now: int,
                       made: seq<Seg>, sg: Seg)
    requires Runs(oc, env, cap) && Observes(env, snap, log, now) && Filled(oc, made, sg)
    ensures StrictlySorted(sg.rows)
  {
    var g: nat :| FilledBy(oc, made, g, sg);
    assert oc(g, sg.user, sg.s, sg.e) == Fetch(env, g, sg.user, sg.s, sg.e, cap);
    AnyUpstream(env, g, sg.user, sg.s, sg.e, cap);
    FilledFromLog(oc, env, cap, snap, log, now, made, sg);
    forall i, j | 0 <= i < j < |sg.rows| ensures Before(sg.rows[i], sg.rows[j]) {
      assert sg.rows[i] in sg.rows && sg.rows[i].id != 0 && !Before(sg.rows[j], sg.rows[i]);
    }
  }

  /** However the log grows meanwhile, the segments of a whole-site run hold at most the
      rows of the window. */
  lemma FilledFits(oc: Outcomes, env: Env, cap: nat, snap: nat -> set<LogItem>, log: set<LogItem>, now: int,
                   made: seq<Seg>, a: Area, segs: seq<Seg>)
    requires Runs(oc, env, cap) && Observes(env, snap, log, now)
    requires a.users == [""] && After(a, Cursor(0, a.s), segs).Some?
    requires forall sg :: sg in segs ==> Filled(oc, made, sg)
    ensures |RowsOf(segs)| <= |Matching(log, a.s, a.e, "")|
  {
    forall sg | sg in segs
      ensures StrictlySorted(sg.rows) && forall r :: r in sg.rows ==> r in log && sg.s <= r.createdAt <= sg.e
    {
      FilledStrictly(oc, env, cap, snap, log, now, made, sg);
      FilledFromLog(oc, env, cap, snap, log, now, made, sg);
    }
    FilledAscend(a, Cursor(0, a.s), segs);
    forall r | r in RowsOf(segs) ensures r in Matching(log, a.s, a.e, "") {
      RowsMember(segs, r);
    }
    AscendingFits(RowsOf(segs), Matching(log, a.s, a.e, ""));
  }
}
