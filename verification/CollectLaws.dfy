/** What every round keeps: the segments tile the requested window, finished segments
    hold what one fetch of exactly that segment returned, and the work left shrinks. */
module CollectLaws {
  import opened Basics
  import opened SegmentFetch
  import opened Segments
  import Cst

  // ---------------------------------------------------------------- tiling

  /** Where the next segment must start: second `next` of target number `user`. */
  datatype Cursor = Cursor(user: nat, next: int)

  /** The targets and the window to tile. */
  datatype Area = Area(users: seq<string>, s: int, e: int)

  function AreaOf(p: Params): Area {
    Area(p.Targets(), p.start, p.end)
  }

  /** A segment extends the tiling when it starts at the cursor, belongs to its target,
      stays in the window and does not cross midnight. */
  function Advance(a: Area, c: Cursor, sg: Seg): Option<Cursor> {
    if c.user < |a.users| && sg.user == a.users[c.user] && sg.s == c.next && sg.s <= sg.e <= a.e
       && Cst.DayOf(sg.s) == Cst.DayOf(sg.e)
    then Some(if sg.e == a.e then Cursor(c.user + 1, a.s) else Cursor(c.user, sg.e + 1))
    else None
  }

  function After(a: Area, c: Cursor, segs: seq<Seg>): Option<Cursor>
    decreases |segs|
  {
    if segs == [] then Some(c)
    else match Advance(a, c, segs[0])
      case None => None
      case Some(c') => After(a, c', segs[1..])
  }

  /** The segments cover the window of every target in order, without gap or overlap. */
  ghost predicate Tiles(a: Area, segs: seq<Seg>) {
    if a.s > a.e then segs == [] else After(a, Cursor(0, a.s), segs) == Some(Cursor(|a.users|, a.s))
  }

  lemma {:induction false} AfterConcat(a: Area, c: Cursor, x: seq<Seg>, y: seq<Seg>)
    ensures After(a, c, x + y) == match After(a, c, x) case None => None case Some(c') => After(a, c', y)
    decreases |x|
  {
    if x == [] {
      assert x + y == y;
    } else {
      assert (x + y)[0] == x[0] && (x + y)[1..] == x[1..] + y;
      if Advance(a, c, x[0]).Some? {
        AfterConcat(a, Advance(a, c, x[0]).value, x[1..], y);
      }
    }
  }

  /** Segment fetches only ask for a cut when there are two seconds to cut between. */
  ghost predicate Sane(oc: Outcomes) {
    forall g: nat, user: string, s: int, e: int :: oc(g, user, s, e).result.Split? ==> s < e
  }

  lemma RunsSane(oc: Outcomes, env: Env, cap: nat)
    requires Runs(oc, env, cap)
    ensures Sane(oc)
  {
    forall g: nat, user: string, s: int, e: int
      ensures oc(g, user, s, e).result.Split? ==> s < e
    {
      assert oc(g, user, s, e) == Fetch(env, g, user, s, e, cap);
    }
  }

  lemma AfterOne(a: Area, c: Cursor, sg: Seg)
    ensures After(a, c, [sg]) == Advance(a, c, sg)
  {
    assert [sg][1..] == [];
  }

  lemma AfterReplace(a: Area, c: Cursor, sg: Seg, r: SegResult)
    requires r.Split? ==> sg.s < sg.e
    requires Advance(a, c, sg).Some?
    ensures After(a, c, Replace(sg, r)) == Advance(a, c, sg)
  {
    match r {
      case Split =>
        var mid := sg.s + (sg.e - sg.s) / 2;
        Cst.DayBounds(sg.s, Cst.DayOf(sg.s));
        Cst.DayBounds(sg.e, Cst.DayOf(sg.s));
        Cst.DayBounds(mid, Cst.DayOf(sg.s));
        Cst.DayBounds(mid + 1, Cst.DayOf(sg.s));
        var l, h := Seg(sg.user, sg.s, mid, [], false), Seg(sg.user, mid + 1, sg.e, [], false);
        assert Advance(a, c, l) == Some(Cursor(c.user, mid + 1));
        assert Advance(a, Cursor(c.user, mid + 1), h) == Advance(a, c, sg);
        assert Replace(sg, r)[0] == l && Replace(sg, r)[1..] == [h];
        AfterOne(a, Cursor(c.user, mid + 1), h);
      case Rows(_) =>
        AfterOne(a, c, Replace(sg, r)[0]);
      case Err(_) =>
        AfterOne(a, c, sg);
    }
  }

  lemma {:induction false} AfterRound(a: Area, c: Cursor, oc: Outcomes, g: nat, q: seq<Seg>, room: nat, i: nat)
    requires Sane(oc) && i <= |q|
    requires After(a, c, q[i..]).Some?
    ensures After(a, c, Round(oc, g, q, room, i)) == After(a, c, q[i..])
    decreases |q| - i
  {
    if i < |q| {
      assert q[i..][0] == q[i] && q[i..][1..] == q[i + 1..];
      var c' := Advance(a, c, q[i]).value;
      if q[i].done || room == 0 {
        AfterRound(a, c', oc, g, q, room, i + 1);
        AfterOne(a, c, q[i]);
        AfterConcat(a, c, [q[i]], Round(oc, g, q, room, i + 1));
      } else {
        AfterRound(a, c', oc, g + 1, q, room - 1, i + 1);
        var r := FetchOf(oc, g, q[i]).result;
        AfterReplace(a, c, q[i], r);
        AfterConcat(a, c, Replace(q[i], r), Round(oc, g + 1, q, room - 1, i + 1));
      }
    } else {
      assert q[i..] == [];
    }
  }

  /** A round of bisections and fetches keeps the tiling. */
  lemma RoundKeepsTiling(a: Area, oc: Outcomes, g: nat, out: seq<Seg>, q: seq<Seg>, room: nat)
    requires Sane(oc) && Tiles(a, out + q)
    ensures Tiles(a, out + Round(oc, g, q, room, 0))
  {
    if a.s > a.e {
      assert out + q == [] && q == [];
      assert Round(oc, g, q, room, 0) == [];
    } else {
      var c := Cursor(0, a.s);
      assert q[0..] == q;
      AfterConcat(a, c, out, q);
      AfterRound(a, After(a, c, out).value, oc, g, q, room, 0);
      AfterConcat(a, c, out, Round(oc, g, q, room, 0));
    }
  }

  lemma {:induction false} DaySegsAdvance(a: Area, u: nat, ds: int)
    requires u < |a.users| && ds <= a.e
    ensures After(a, Cursor(u, ds), DaySegs(a.users[u], ds, a.e)) == Some(Cursor(u + 1, a.s))
    decreases a.e - ds
  {
    Cst.DayEndIsLast(ds);
    var de := if Cst.DayEnd(ds) > a.e then a.e else Cst.DayEnd(ds);
    var head := Seg(a.users[u], ds, de, [], false);
    var tail := DaySegs(a.users[u], de + 1, a.e);
    assert DaySegs(a.users[u], ds, a.e) == [head] + tail;
    assert ([head] + tail)[1..] == tail;
    if de < a.e {
      DaySegsAdvance(a, u, de + 1);
    } else {
      assert tail == [];
    }
  }

  lemma {:induction false} AllDaySegsAdvance(a: Area, n: nat)
    requires n <= |a.users| && a.s <= a.e
    ensures After(a, Cursor(0, a.s), AllDaySegs(a.users[..n], a.s, a.e)) == Some(Cursor(n, a.s))
  {
    if n > 0 {
      AllDaySegsAdvance(a, n - 1);
      assert a.users[..n][..n - 1] == a.users[..n - 1];
      DaySegsAdvance(a, n - 1, a.s);
      AfterConcat(a, Cursor(0, a.s), AllDaySegs(a.users[..n - 1], a.s, a.e), DaySegs(a.users[n - 1], a.s, a.e));
    }
  }

  lemma {:induction false} NoDays(users: seq<string>, s: int, e: int)
    requires s > e
    ensures AllDaySegs(users, s, e) == []
  {
    if users != [] {
      NoDays(users[..|users| - 1], s, e);
    }
  }

  /** The initial day-by-day segments tile the window of every target. */
  lemma InitialTiles(p: Params)
    ensures Tiles(AreaOf(p), AllDaySegs(p.Targets(), p.start, p.end))
    ensures forall sg :: sg in AllDaySegs(p.Targets(), p.start, p.end) ==> !sg.done && sg.rows == []
  {
    var a := AreaOf(p);
    if a.s > a.e {
      NoDays(a.users, a.s, a.e);
    } else {
      AllDaySegsAdvance(a, |a.users|);
      assert a.users[..|a.users|] == a.users;
    }
    InitialUndone(p.Targets(), p.start, p.end);
  }

  lemma {:induction false} InitialUndone(users: seq<string>, s: int, e: int)
    ensures forall sg :: sg in AllDaySegs(users, s, e) ==> !sg.done && sg.rows == []
  {
    if users != [] {
      InitialUndone(users[..|users| - 1], s, e);
      DaysUndone(users[|users| - 1], s, e);
    }
  }

  lemma {:induction false} DaysUndone(user: string, ds: int, e: int)
    ensures forall sg :: sg in DaySegs(user, ds, e) ==> !sg.done && sg.rows == []
    decreases e - ds
  {
    if ds <= e {
      Cst.DayEndIsLast(ds);
      var de := if Cst.DayEnd(ds) > e then e else Cst.DayEnd(ds);
      DaysUndone(user, de + 1, e);
    }
  }

  // ---------------------------------------------------------------- where rows come from

  /** The rows of the segment are what one fetch of exactly this window returned, and that
      fetch is one of those made. */
  ghost predicate Filled(oc: Outcomes, made: seq<Seg>, sg: Seg) {
    exists g: nat :: FilledBy(oc, made, g, sg)
  }

  ghost predicate FilledBy(oc: Outcomes, made: seq<Seg>, g: nat, sg: Seg) {
    && g < |made| && made[g].user == sg.user && made[g].s == sg.s && made[g].e == sg.e
    && oc(g, sg.user, sg.s, sg.e).result == Rows(sg.rows)
  }

  /** ... and that fetch was not counted as short. */
  ghost predicate Whole(oc: Outcomes, made: seq<Seg>, sg: Seg) {
    exists g: nat :: FilledBy(oc, made, g, sg) && !oc(g, sg.user, sg.s, sg.e).short
  }

  ghost predicate AllFilled(oc: Outcomes, made: seq<Seg>, segs: seq<Seg>) {
    forall sg :: sg in segs && sg.done ==> Filled(oc, made, sg)
  }

  ghost predicate AllWhole(oc: Outcomes, made: seq<Seg>, segs: seq<Seg>) {
    forall sg :: sg in segs && sg.done ==> Whole(oc, made, sg)
  }

  /** More fetches change nothing about the segments filled before. */
  lemma FilledStays(oc: Outcomes, made: seq<Seg>, more: seq<Seg>, segs: seq<Seg>)
    ensures AllFilled(oc, made, segs) ==> AllFilled(oc, made + more, segs)
    ensures AllWhole(oc, made, segs) ==> AllWhole(oc, made + more, segs)
  {
    forall sg, g: nat | FilledBy(oc, made, g, sg) ensures FilledBy(oc, made + more, g, sg) {
      assert (made + more)[g] == made[g];
    }
  }

  lemma {:induction false} RoundFills(oc: Outcomes, all: seq<Seg>, g: nat, q: seq<Seg>, room: nat, i: nat)
    requires i <= |q| && g <= |all| && all[g..] == Picked(q, room, i) && AllFilled(oc, all, q)
    ensures AllFilled(oc, all, Round(oc, g, q, room, i))
    ensures AllWhole(oc, all, q) && RoundTally(oc, g, q, room, i).shorts == 0
      ==> AllWhole(oc, all, Round(oc, g, q, room, i))
    decreases |q| - i
  {
    if i < |q| {
      if q[i].done || room == 0 {
        RoundFills(oc, all, g, q, room, i + 1);
      } else {
        assert all[g] == q[i] && all[g + 1..] == Picked(q, room - 1, i + 1);
        RoundFills(oc, all, g + 1, q, room - 1, i + 1);
        ReplaceFills(oc, all, g, q[i]);
      }
    }
  }

  lemma ReplaceFills(oc: Outcomes, all: seq<Seg>, g: nat, sg: Seg)
    requires g < |all| && all[g] == sg
    ensures var f := FetchOf(oc, g, sg);
      !sg.done ==> AllFilled(oc, all, Replace(sg, f.result)) && (!f.short ==> AllWhole(oc, all, Replace(sg, f.result)))
  {
    var f := FetchOf(oc, g, sg);
    forall piece | piece in Replace(sg, f.result) && piece.done && !sg.done
      ensures Filled(oc, all, piece) && (!f.short ==> Whole(oc, all, piece))
    {
      assert FilledBy(oc, all, g, piece);
    }
  }

  // ---------------------------------------------------------------- work left

  /** Sum of a quantity over a list of segments. */
  ghost function Total(f: Seg -> nat, segs: seq<Seg>): nat {
    if segs == [] then 0 else f(segs[0]) + Total(f, segs[1..])
  }

  lemma {:induction false} TotalConcat(f: Seg -> nat, x: seq<Seg>, y: seq<Seg>)
    ensures Total(f, x + y) == Total(f, x) + Total(f, y)
    decreases |x|
  {
    if x == [] {
      assert x + y == y;
    } else {
      assert (x + y)[0] == x[0] && (x + y)[1..] == x[1..] + y;
      TotalConcat(f, x[1..], y);
    }
  }

  lemma TotalOne(f: Seg -> nat, sg: Seg)
    ensures Total(f, [sg]) == f(sg)
  {
    assert [sg][1..] == [];
  }

  lemma TotalTwo(f: Seg -> nat, x: Seg, y: Seg)
    ensures Total(f, [x, y]) == f(x) + f(y)
  {
    assert [x, y][1..] == [y];
    TotalOne(f, y);
  }

  /** Twice the length minus one, for a segment still to be fetched: a bisection turns
      2n-1 into at most 2n-2, a fill turns it into 0. */
  ghost function Weight(): Seg -> nat {
    (sg: Seg) => if sg.done || sg.e < sg.s then 0 else 2 * (sg.e - sg.s) + 1
  }

  ghost predicate NonEmpty(segs: seq<Seg>) {
    forall sg :: sg in segs ==> sg.s <= sg.e
  }

  /** Every fetch that does not fail uses up at least one unit of the weight left. */
  lemma {:induction false} RoundShrinks(oc: Outcomes, g: nat, q: seq<Seg>, room: nat, i: nat)
    requires Sane(oc) && i <= |q| && NonEmpty(q)
    requires RoundTally(oc, g, q, room, i).errs == 0
    ensures Total(Weight(), Round(oc, g, q, room, i)) + RoundTally(oc, g, q, room, i).fetches <= Total(Weight(), q[i..])
    decreases |q| - i
  {
    if i < |q| {
      assert q[i..][0] == q[i] && q[i..][1..] == q[i + 1..];
      if q[i].done || room == 0 {
        RoundShrinks(oc, g, q, room, i + 1);
        TotalConcat(Weight(), [q[i]], Round(oc, g, q, room, i + 1));
        TotalOne(Weight(), q[i]);
      } else {
        RoundShrinks(oc, g + 1, q, room - 1, i + 1);
        var r := FetchOf(oc, g, q[i]).result;
        TotalConcat(Weight(), Replace(q[i], r), Round(oc, g + 1, q, room - 1, i + 1));
        if r.Split? {
          var mid := q[i].s + (q[i].e - q[i].s) / 2;
          TotalTwo(Weight(), Seg(q[i].user, q[i].s, mid, [], false), Seg(q[i].user, mid + 1, q[i].e, [], false));
        } else {
          TotalOne(Weight(), q[i].(rows := r.rows, done := true));
        }
      }
    } else {
      assert q[i..] == [];
    }
  }
}
