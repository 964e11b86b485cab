/** The work list of the segmented fetch (backend/internal/detail/detail.go: Params,
    initialSegments and one round of Collect): the first unfinished segments are probed
    in parallel, and each is then bisected or filled in place. */
module Segments {
  import opened Basics
  import opened LogRows
  import opened SegmentFetch
  import Cst

  const WINDOW_CAP: nat := 5000
  const CONCURRENCY: nat := 3
  const MAX_TOTAL_ROWS: nat := 2_000_000

  datatype Params = Params(start: int, end: int, users: seq<string>,
                           windowCap: int, concurrency: int, maxTotalRows: int)
  {
    function Cap(): nat {
      if windowCap > 0 then windowCap else WINDOW_CAP
    }

    function Conc(): (c: nat)
      ensures c > 0
    {
      if concurrency > 0 then concurrency else CONCURRENCY
    }

    function MaxTotal(): nat {
      if maxTotalRows > 0 then maxTotalRows else MAX_TOTAL_ROWS
    }

    /** No named user means one target: the whole site. */
    function Targets(): seq<string> {
      if users == [] then [""] else users
    }
  }

  /** Limits that are not given have their defaults. */
  lemma DefaultLimits(p: Params)
    ensures p.Cap() == if p.windowCap > 0 then p.windowCap else 5000
    ensures p.Conc() == if p.concurrency > 0 then p.concurrency else 3
    ensures p.MaxTotal() == if p.maxTotalRows > 0 then p.maxTotalRows else 2_000_000
  {
  }

  datatype Seg = Seg(user: string, s: int, e: int, rows: seq<LogItem>, done: bool)

  datatype Failure = RowLimit | Stopped | FetchFailed(fault: Fault) | WriteFailed

  // ---------------------------------------------------------------- initial segments

  /** The day-by-day segments of one target from second `ds` to `end`. */
  function DaySegs(user: string, ds: int, end: int): seq<Seg>
    decreases end - ds
  {
    if ds > end then []
    else
      Cst.DayEndIsLast(ds);
      var de := if Cst.DayEnd(ds) > end then end else Cst.DayEnd(ds);
      [Seg(user, ds, de, [], false)] + DaySegs(user, de + 1, end)
  }

  /** One segment for each day that the window meets. */
  lemma {:induction false} SegmentPerDay(user: string, ds: int, end: int)
    ensures |DaySegs(user, ds, end)| == if ds <= end then Cst.DayOf(end) - Cst.DayOf(ds) + 1 else 0
    decreases end - ds
  {
    if ds <= end {
      Cst.DayEndIsLast(ds);
      Cst.DayMonotone(ds, end);
      if Cst.DayEnd(ds) < end {
        SegmentPerDay(user, Cst.DayEnd(ds) + 1, end);
        Cst.DayMonotone(Cst.DayEnd(ds) + 1, end);
      } else {
        Cst.DayMonotone(end, Cst.DayEnd(ds));
      }
    }
  }

  /** ... and target. */
  lemma {:induction false} SegmentPerDayAndTarget(users: seq<string>, start: int, end: int)
    ensures |AllDaySegs(users, start, end)|
         == |users| * if start <= end then Cst.DayOf(end) - Cst.DayOf(start) + 1 else 0
  {
    if users != [] {
      var n, days := |users| - 1, if start <= end then Cst.DayOf(end) - Cst.DayOf(start) + 1 else 0;
      SegmentPerDayAndTarget(users[..n], start, end);
      SegmentPerDay(users[n], start, end);
      OneMoreTimes(n, days);
    }
  }

  lemma OneMoreTimes(n: nat, days: int)
    ensures (n + 1) * days == n * days + days
  {
  }

  function AllDaySegs(users: seq<string>, start: int, end: int): seq<Seg> {
    if users == [] then []
    else AllDaySegs(users[..|users| - 1], start, end) + DaySegs(users[|users| - 1], start, end)
  }

  method DaysOf(user: string, start: int, end: int) returns (out: seq<Seg>)
    ensures out == DaySegs(user, start, end)
  {
    out := [];
    var ds := start;
    ghost var rest := DaySegs(user, start, end);
    while ds <= end
      invariant rest == DaySegs(user, ds, end)
      invariant out + rest == DaySegs(user, start, end)
      decreases end - ds
    {
      Cst.DayEndIsLast(ds);
      var de := Cst.DayEnd(ds);
      if de > end {
        de := end;
      }
      rest := rest[1..];
      out := out + [Seg(user, ds, de, [], false)];
      ds := de + 1;
    }
  }

  /** Every target's days, oldest first. */
  method InitialSegments(p: Params) returns (out: seq<Seg>)
    ensures out == AllDaySegs(p.Targets(), p.start, p.end)
  {
    var targets := p.users;
    if |targets| == 0 {
      targets := [""];
    }
    out := [];
    for i := 0 to |targets|
      invariant out == AllDaySegs(targets[..i], p.start, p.end)
    {
      assert targets[..i + 1][..i] == targets[..i];
      var days := DaysOf(targets[i], p.start, p.end);
      out := out + days;
    }
    assert targets[..|targets|] == targets;
  }

  // ---------------------------------------------------------------- one round

  /** What one fetched segment becomes in the next list. */
  function Replace(sg: Seg, r: SegResult): seq<Seg> {
    match r
    case Split =>
      var mid := sg.s + (sg.e - sg.s) / 2;
      [Seg(sg.user, sg.s, mid, [], false), Seg(sg.user, mid + 1, sg.e, [], false)]
    case Rows(rows) => [sg.(rows := rows, done := true)]
    case Err(_) => [sg]
  }

  /** The outcome of segment fetch number g for a user and window. */
  type Outcomes = (nat, string, int, int) -> Fetched

  ghost predicate Runs(oc: Outcomes, env: Env, cap: nat) {
    forall g: nat, user: string, s: int, e: int {:trigger Fetch(env, g, user, s, e, cap)} ::
      oc(g, user, s, e) == Fetch(env, g, user, s, e, cap)
  }

  ghost function FetchOf(oc: Outcomes, g: nat, sg: Seg): Fetched {
    oc(g, sg.user, sg.s, sg.e)
  }

  /** The list from position `i` on after a round that gives its first `room` unfinished
      segments to the fetches numbered from `g` on. */
  ghost function Round(oc: Outcomes, g: nat, q: seq<Seg>, room: nat, i: nat): seq<Seg>
    requires i <= |q|
    decreases |q| - i
  {
    if i == |q| then []
    else if q[i].done || room == 0 then [q[i]] + Round(oc, g, q, room, i + 1)
    else Replace(q[i], FetchOf(oc, g, q[i]).result) + Round(oc, g + 1, q, room - 1, i + 1)
  }

  datatype Tally = Tally(calls: nat, shorts: nat, splits: nat, fetches: nat, errs: nat)
  {
    function Plus(t: Tally): Tally {
      Tally(calls + t.calls, shorts + t.shorts, splits + t.splits, fetches + t.fetches, errs + t.errs)
    }
  }

  function TallyOf(f: Fetched): Tally {
    Tally(f.calls, if f.short then 1 else 0, if f.result.Split? then 1 else 0, 1, if f.result.Err? then 1 else 0)
  }

  ghost function RoundTally(oc: Outcomes, g: nat, q: seq<Seg>, room: nat, i: nat): Tally
    requires i <= |q|
    decreases |q| - i
  {
    if i == |q| then Tally(0, 0, 0, 0, 0)
    else if q[i].done || room == 0 then RoundTally(oc, g, q, room, i + 1)
    else TallyOf(FetchOf(oc, g, q[i])).Plus(RoundTally(oc, g + 1, q, room - 1, i + 1))
  }

  /** The indices of the first `conc` unfinished segments. */
  ghost predicate Picks(q: seq<Seg>, idx: seq<nat>, conc: nat) {
    && |idx| <= conc
    && (forall k :: 0 <= k < |idx| ==> idx[k] < |q| && !q[idx[k]].done)
    && (forall k, l :: 0 <= k < l < |idx| ==> idx[k] < idx[l])
    && (forall i :: 0 <= i < |q| && !q[i].done && i !in idx ==>
          |idx| == conc && forall k :: 0 <= k < |idx| ==> idx[k] < i)
  }

  /** All unfinished segments before position `i`. */
  ghost predicate PicksUpTo(q: seq<Seg>, idx: seq<nat>, i: nat) {
    && i <= |q|
    && (forall k :: 0 <= k < |idx| ==> idx[k] < i && !q[idx[k]].done)
    && (forall k, l :: 0 <= k < l < |idx| ==> idx[k] < idx[l])
    && (forall j :: 0 <= j < i && !q[j].done ==> j in idx)
  }

  /** The segments that a round fetches: the first `room` unfinished ones from position `i` on. */
  ghost function Picked(q: seq<Seg>, room: nat, i: nat): seq<Seg>
    requires i <= |q|
    decreases |q| - i
  {
    if i == |q| then []
    else if q[i].done || room == 0 then Picked(q, room, i + 1)
    else [q[i]] + Picked(q, room - 1, i + 1)
  }

  /** The entries of the list at the first `n` of these positions. */
  ghost function EntriesAt(q: seq<Seg>, idx: seq<nat>, n: nat): seq<Seg>
    requires n <= |idx| && forall k :: 0 <= k < |idx| ==> idx[k] < |q|
  {
    seq(n, k requires 0 <= k < n => q[idx[k]])
  }

  lemma {:induction false} NoRoom(q: seq<Seg>, i: nat)
    requires i <= |q|
    ensures Picked(q, 0, i) == []
    decreases |q| - i
  {
    if i < |q| {
      NoRoom(q, i + 1);
    }
  }

  /** The entries picked before position `i` and those picked from there on are the whole pick. */
  ghost predicate PicksSoFar(q: seq<Seg>, idx: seq<nat>, conc: nat, i: nat) {
    && i <= |q| && |idx| <= conc && (forall k :: 0 <= k < |idx| ==> idx[k] < |q|)
    && Picked(q, conc, 0) == EntriesAt(q, idx, |idx|) + Picked(q, conc - |idx|, i)
  }

  lemma PicksOneMore(q: seq<Seg>, idx: seq<nat>, conc: nat, i: nat)
    requires PicksSoFar(q, idx, conc, i) && i < |q| && |idx| < conc
    ensures PicksSoFar(q, if q[i].done then idx else idx + [i], conc, i + 1)
  {
    if !q[i].done {
      assert EntriesAt(q, idx + [i], |idx| + 1) == EntriesAt(q, idx, |idx|) + [q[i]];
    }
  }

  ghost predicate Picking(q: seq<Seg>, idx: seq<nat>, conc: nat, i: nat) {
    PicksUpTo(q, idx, i) && PicksSoFar(q, idx, conc, i)
  }

  lemma PickingGoesOn(q: seq<Seg>, idx: seq<nat>, conc: nat, i: nat)
    requires Picking(q, idx, conc, i) && i < |q| && |idx| < conc
    ensures Picking(q, if q[i].done then idx else idx + [i], conc, i + 1)
  {
    PicksOneMore(q, idx, conc, i);
  }

  /** The indices of the first `conc` unfinished segments, which are what the round fetches. */
  ghost predicate Pick(q: seq<Seg>, idx: seq<nat>, conc: nat) {
    && Picks(q, idx, conc) && Picked(q, conc, 0) == EntriesAt(q, idx, |idx|)
    && ((exists i :: 0 <= i < |q| && !q[i].done) ==> |idx| > 0)
  }

  lemma PickingEnds(q: seq<Seg>, idx: seq<nat>, conc: nat, i: nat)
    requires Picking(q, idx, conc, i) && conc > 0 && (i == |q| || |idx| == conc)
    ensures Pick(q, idx, conc)
  {
    if |idx| == conc {
      NoRoom(q, i);
    }
  }

  method PickUndone(q: seq<Seg>, conc: nat) returns (idx: seq<nat>)
    requires conc > 0
    ensures Pick(q, idx, conc)
  {
    idx := [];
    ghost var n := 0;
    for i := 0 to |q|
      invariant n == i && |idx| < conc && Picking(q, idx, conc, i)
    {
      PickingGoesOn(q, idx, conc, i);
      n := i + 1;
      if !q[i].done {
        idx := idx + [i];
        if |idx| == conc {
          break;
        }
      }
    }
    PickingEnds(q, idx, conc, n);
  }

  /** What the first `n` fetches of these segments, numbered from 0 on, cost and count together. */
  ghost function SpentBy(oc: Outcomes, made: seq<Seg>, n: nat): Tally
    requires n <= |made|
  {
    if n == 0 then Tally(0, 0, 0, 0, 0)
    else SpentBy(oc, made, n - 1).Plus(TallyOf(FetchOf(oc, n - 1, made[n - 1])))
  }

  ghost function Spent(oc: Outcomes, made: seq<Seg>): Tally {
    SpentBy(oc, made, |made|)
  }

  lemma {:induction false} SpentPrefix(oc: Outcomes, made: seq<Seg>, all: seq<Seg>, n: nat)
    requires n <= |made| && made <= all
    ensures SpentBy(oc, all, n) == SpentBy(oc, made, n)
  {
    if n > 0 {
      SpentPrefix(oc, made, all, n - 1);
    }
  }

  lemma SpentSnoc(oc: Outcomes, made: seq<Seg>, sg: Seg)
    ensures Spent(oc, made + [sg]) == Spent(oc, made).Plus(TallyOf(FetchOf(oc, |made|, sg)))
  {
    SpentPrefix(oc, made, made + [sg], |made|);
  }

  lemma PlusAssociates(x: Tally, y: Tally, z: Tally)
    ensures x.Plus(y).Plus(z) == x.Plus(y.Plus(z))
  {
  }

  lemma {:induction false} RoundSpendsFrom(oc: Outcomes, all: seq<Seg>, g: nat, q: seq<Seg>, room: nat, i: nat)
    requires i <= |q| && g <= |all| && all[g..] == Picked(q, room, i)
    ensures SpentBy(oc, all, |all|) == SpentBy(oc, all, g).Plus(RoundTally(oc, g, q, room, i))
    decreases |q| - i
  {
    if i == |q| {
      assert g == |all|;
    } else if q[i].done || room == 0 {
      RoundSpendsFrom(oc, all, g, q, room, i + 1);
    } else {
      assert all[g] == q[i] && all[g + 1..] == Picked(q, room - 1, i + 1);
      RoundSpendsFrom(oc, all, g + 1, q, room - 1, i + 1);
      PlusAssociates(SpentBy(oc, all, g), TallyOf(FetchOf(oc, g, q[i])), RoundTally(oc, g + 1, q, room - 1, i + 1));
    }
  }

  /** The tally of a round is what its fetches add. */
  lemma RoundSpends(oc: Outcomes, made: seq<Seg>, q: seq<Seg>, room: nat, i: nat)
    requires i <= |q|
    ensures Spent(oc, made + Picked(q, room, i)) == Spent(oc, made).Plus(RoundTally(oc, |made|, q, room, i))
  {
    var all := made + Picked(q, room, i);
    RoundSpendsFrom(oc, all, |made|, q, room, i);
    SpentPrefix(oc, made, all, |made|);
  }

  /** The counters show what the fetches of `made` added to these. */
  ghost predicate CountersShow(prog: Progress, short: int, calls: int, oc: Outcomes, made: seq<Seg>)
    reads prog
  {
    prog.short == short + Spent(oc, made).shorts && prog.calls == calls + Spent(oc, made).calls
  }

  method FetchOne(env: Env, g: nat, sg: Seg, cap: nat, prog: Progress,
                  ghost oc: Outcomes, ghost made: seq<Seg>, ghost short: int, ghost calls: int)
      returns (r: SegResult)
    requires Runs(oc, env, cap) && g == |made| && CountersShow(prog, short, calls, oc, made)
    modifies prog`short, prog`warns, prog`calls
    ensures r == FetchOf(oc, g, sg).result && CountersShow(prog, short, calls, oc, made + [sg])
  {
    ghost var f;
    r, f := FetchSeg(env, g, sg.user, sg.s, sg.e, cap, prog);
    SpentSnoc(oc, made, sg);
  }

  lemma EntriesSnoc(made: seq<Seg>, q: seq<Seg>, idx: seq<nat>, n: nat)
    requires n < |idx| && forall k :: 0 <= k < |idx| ==> idx[k] < |q|
    ensures made + EntriesAt(q, idx, n + 1) == made + EntriesAt(q, idx, n) + [q[idx[n]]]
  {
  }

  /** `res[k]` is the result of the fetch of the k-th picked segment, for the first `n` of them. */
  ghost predicate ResultsOf(oc: Outcomes, g: nat, q: seq<Seg>, idx: seq<nat>, res: seq<SegResult>, n: nat)
    requires forall k :: 0 <= k < |idx| ==> idx[k] < |q|
  {
    n <= |res| <= |idx| && forall k :: 0 <= k < n ==> res[k] == FetchOf(oc, g + k, q[idx[k]]).result
  }

  /** The first `n` fetches of a round are made, counted, and their results stored. */
  ghost predicate Stored(prog: Progress, short: int, calls: int, oc: Outcomes, made: seq<Seg>, q: seq<Seg>,
                         idx: seq<nat>, res: seq<SegResult>, n: nat)
    requires forall k :: 0 <= k < |idx| ==> idx[k] < |q|
    reads prog
  {
    && n <= |idx| == |res| && ResultsOf(oc, |made|, q, idx, res, n)
    && CountersShow(prog, short, calls, oc, made + EntriesAt(q, idx, n))
  }

  /** One goroutine of a round. */
  method FetchSlot(env: Env, g: nat, q: seq<Seg>, idx: seq<nat>, k: nat, cap: nat, prog: Progress,
                   ghost oc: Outcomes, ghost made: seq<Seg>, ghost res: seq<SegResult>,
                   ghost short: int, ghost calls: int)
      returns (r: SegResult)
    requires k < |idx| && forall l :: 0 <= l < |idx| ==> idx[l] < |q|
    requires Runs(oc, env, cap) && g == |made| && Stored(prog, short, calls, oc, made, q, idx, res, k)
    modifies prog`short, prog`warns, prog`calls
    ensures Stored(prog, short, calls, oc, made, q, idx, res[k := r], k + 1)
  {
    EntriesSnoc(made, q, idx, k);
    r := FetchOne(env, g + k, q[idx[k]], cap, prog, oc, made + EntriesAt(q, idx, k), short, calls);
  }

  /** The parallel fetches of a round, numbered from `|made|` on; every goroutine finishes
      before the results are read. */
  method FetchAll(env: Env, g: nat, q: seq<Seg>, idx: seq<nat>, cap: nat, prog: Progress,
                  ghost oc: Outcomes, ghost made: seq<Seg>, ghost short: int, ghost calls: int)
      returns (res: array<SegResult>)
    requires forall k :: 0 <= k < |idx| ==> idx[k] < |q|
    requires Runs(oc, env, cap) && g == |made| && CountersShow(prog, short, calls, oc, made)
    modifies prog`short, prog`warns, prog`calls
    ensures fresh(res) && res.Length == |idx| && Stored(prog, short, calls, oc, made, q, idx, res[..], |idx|)
  {
    res := new SegResult[|idx|](_ => Split);
    assert made + EntriesAt(q, idx, 0) == made;
    for k := 0 to |idx|
      invariant Stored(prog, short, calls, oc, made, q, idx, res[..], k)
    {
      ghost var was := res[..];
      var r := FetchSlot(env, g, q, idx, k, cap, prog, oc, made, was, short, calls);
      res[k] := r;
      assert res[..] == was[k := r];
    }
  }

  /** `k` of the picked indices lie before position `i`. */
  ghost predicate PickedBefore(idx: seq<nat>, k: nat, i: nat) {
    && k <= |idx|
    && (forall l :: 0 <= l < k ==> idx[l] < i)
    && (forall l :: k <= l < |idx| ==> idx[l] >= i)
  }

  /** Position `i` is either the next picked index, or finished, or beyond the room. */
  lemma NextPick(q: seq<Seg>, idx: seq<nat>, conc: nat, k: nat, i: nat)
    requires Picks(q, idx, conc) && PickedBefore(idx, k, i) && i < |q|
    ensures i in idx ==> k < |idx| && idx[k] == i && !q[i].done && PickedBefore(idx, k + 1, i + 1)
    ensures i !in idx ==> (q[i].done || k == conc) && PickedBefore(idx, k, i + 1)
  {
    assert k < |idx| ==> idx[k] >= i;
    if i in idx {
      var l :| 0 <= l < |idx| && idx[l] == i;
      assert idx[k] <= idx[l];
    }
  }

  /** Result `k` is the first one that failed. */
  ghost predicate FirstErr(res: seq<SegResult>, k: nat) {
    k < |res| && res[k].Err? && forall l :: 0 <= l < k ==> !res[l].Err?
  }

  /** Collects the results by list index; the first failed segment, in list order, ends the job. */
  method ByIndex(idx: seq<nat>, res: array<SegResult>) returns (fault: Option<Fault>, byIdx: map<nat, SegResult>)
    requires res.Length == |idx|
    requires forall k, l :: 0 <= k < l < |idx| ==> idx[k] < idx[l]
    ensures fault.Some? ==> exists k :: 0 <= k < |idx| && FirstErr(res[..], k) && res[k] == Err(fault.value)
    ensures fault.None? ==> forall k :: 0 <= k < |idx| ==> !res[k].Err? && idx[k] in byIdx && byIdx[idx[k]] == res[k]
    ensures forall i :: i in byIdx ==> i in idx
  {
    byIdx := map[];
    for k := 0 to |idx|
      invariant forall l :: 0 <= l < k ==> !res[l].Err? && idx[l] in byIdx && byIdx[idx[l]] == res[l]
      invariant forall i :: i in byIdx ==> i in idx
    {
      if res[k].Err? {
        assert FirstErr(res[..], k);
        return Some(res[k].fault), byIdx;
      }
      byIdx := byIdx[idx[k] := res[k]];
    }
    return None, byIdx;
  }

  /** The list entries that replace one fetched segment. */
  method Settle(sg: Seg, r: SegResult, prog: Progress) returns (pieces: seq<Seg>)
    requires !r.Err?
    modifies prog`segTotal, prog`splits
    ensures pieces == Replace(sg, r)
    ensures prog.splits == old(prog.splits) + if r.Split? then 1 else 0
    ensures prog.segTotal == old(prog.segTotal) + if r.Split? then 1 else 0
  {
    match r {
      case Split =>
        var mid := sg.s + (sg.e - sg.s) / 2;
        pieces := [Seg(sg.user, sg.s, mid, [], false), Seg(sg.user, mid + 1, sg.e, [], false)];
        prog.segTotal, prog.splits := prog.segTotal + 1, prog.splits + 1;
      case Rows(rows) =>
        pieces := [sg.(rows := rows, done := true)];
    }
  }

  /** Progress of a rebuild: `nq` and `cuts` so far, and what the positions from `i` on add. */
  ghost predicate Built(oc: Outcomes, g: nat, q: seq<Seg>, room: nat, i: nat, nq: seq<Seg>, cuts: nat,
                        all: seq<Seg>, total: nat) {
    && i <= |q|
    && nq + Round(oc, g, q, room, i) == all
    && cuts + RoundTally(oc, g, q, room, i).splits == total
  }

  /** Handles one list position: kept, or replaced by what its fetch brought. */
  method Place(ghost oc: Outcomes, ghost g: nat, ghost room: nat, ghost cuts: nat,
               ghost all: seq<Seg>, ghost total: nat,
               q: seq<Seg>, i: nat, byIdx: map<nat, SegResult>, nq: seq<Seg>, prog: Progress)
      returns (nq': seq<Seg>, ghost g': nat, ghost room': nat, ghost cuts': nat)
    requires i < |q| && Built(oc, g, q, room, i, nq, cuts, all, total)
    requires i !in byIdx ==> q[i].done || room == 0
    requires i in byIdx ==> !q[i].done && room > 0 && byIdx[i] == FetchOf(oc, g, q[i]).result && !byIdx[i].Err?
    modifies prog`segTotal, prog`splits
    ensures Built(oc, g', q, room', i + 1, nq', cuts', all, total)
    ensures if i in byIdx then g' == g + 1 && room' == room - 1 else g' == g && room' == room
    ensures prog.splits == old(prog.splits) + cuts' - cuts && prog.segTotal == old(prog.segTotal) + cuts' - cuts
  {
    if i !in byIdx {
      nq', g', room', cuts' := nq + [q[i]], g, room, cuts;
    } else {
      var pieces := Settle(q[i], byIdx[i], prog);
      nq', g', room', cuts' := nq + pieces, g + 1, room - 1, cuts + if byIdx[i].Split? then 1 else 0;
    }
  }

  /** Builds the next list from the results of the round. */
  method Rebuild(ghost oc: Outcomes, ghost g: nat, ghost conc: nat,
                 q: seq<Seg>, idx: seq<nat>, byIdx: map<nat, SegResult>, prog: Progress)
      returns (nq: seq<Seg>)
    requires Picks(q, idx, conc)
    requires forall k :: 0 <= k < |idx| ==> idx[k] in byIdx && !byIdx[idx[k]].Err?
    requires forall k :: 0 <= k < |idx| ==> byIdx[idx[k]] == FetchOf(oc, g + k, q[idx[k]]).result
    requires forall i :: i in byIdx ==> i in idx
    modifies prog`segTotal, prog`splits
    ensures nq == Round(oc, g, q, conc, 0)
    ensures prog.splits == old(prog.splits) + RoundTally(oc, g, q, conc, 0).splits
    ensures prog.segTotal == old(prog.segTotal) + RoundTally(oc, g, q, conc, 0).splits
  {
    nq := [];
    ghost var all, total := Round(oc, g, q, conc, 0), RoundTally(oc, g, q, conc, 0).splits;
    ghost var k: nat, gg, room, cuts := 0, g, conc, 0;
    for i := 0 to |q|
      invariant PickedBefore(idx, k, i) && gg == g + k && room == conc - k
      invariant Built(oc, gg, q, room, i, nq, cuts, all, total)
      invariant prog.splits == old(prog.splits) + cuts && prog.segTotal == old(prog.segTotal) + cuts
    {
      NextPick(q, idx, conc, k, i);
      nq, gg, room, cuts := Place(oc, gg, room, cuts, all, total, q, i, byIdx, nq, prog);
      if i in byIdx {
        k := k + 1;
      }
    }
  }
}
