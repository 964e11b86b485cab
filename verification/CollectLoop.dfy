/** The fetch loop (backend/internal/detail/detail.go: Collect) writing into the local store. */
module CollectLoop {
  import opened Basics
  import opened LogRows
  import opened SegmentFetch
  import opened LocalStore
  import opened Segments
  import opened CollectLaws
  import opened CollectRows
  import opened RequestBound

  ghost predicate AllDone(segs: seq<Seg>) {
    forall sg :: sg in segs ==> sg.done
  }

  // ---------------------------------------------------------------- the course of a run

  /** The work list after some rounds, and the segments fetched in them, by number of the fetch. */
  datatype Work = Work(list: seq<Seg>, made: seq<Seg>)

  /** The work list after `r` complete rounds; what is emitted meanwhile stays on it. */
  ghost function WorkAfter(oc: Outcomes, conc: nat, init: seq<Seg>, r: nat): Work {
    if r == 0 then Work(init, [])
    else
      var w := WorkAfter(oc, conc, init, r - 1);
      Work(Round(oc, |w.made|, w.list, conc, 0), w.made + Picked(w.list, conc, 0))
  }

  /** How far a run has come: its complete rounds, the segments fetched in them, and those of
      a last round that failed. */
  datatype Course = Course(rounds: nat, settled: seq<Seg>, last: seq<Seg>)
  {
    /** All segments fetched, by number of the fetch. */
    function Made(): seq<Seg> {
      settled + last
    }
  }

  /** The run has come this far and its work list is `segs`: both are determined by the
      number of rounds. */
  ghost predicate Reached(oc: Outcomes, conc: nat, init: seq<Seg>, c: Course, segs: seq<Seg>) {
    && WorkAfter(oc, conc, init, c.rounds) == Work(segs, c.settled)
    && (c.last == [] || c.last == Picked(segs, conc, 0))
  }

  ghost predicate NoFault(oc: Outcomes, made: seq<Seg>) {
    forall g :: 0 <= g < |made| ==> !FetchOf(oc, g, made[g]).result.Err?
  }

  /** Fetch number `g` is the first one that failed. */
  ghost predicate FirstFault(oc: Outcomes, made: seq<Seg>, g: nat, f: Fault) {
    g < |made| && NoFault(oc, made[..g]) && FetchOf(oc, g, made[g]).result == Err(f)
  }

  /** Why a run stopped. */
  ghost predicate Reason(p: Params, env: Env, oc: Outcomes, failure: Option<Failure>,
                         out: seq<Seg>, rest: seq<Seg>, c: Course) {
    match failure
    case None => rest == []
    case Some(RowLimit) => rest != [] && rest[0].done && |RowsOf(out)| + |rest[0].rows| > p.MaxTotal()
    case Some(Stopped) => rest != [] && env.stop(c.rounds)
    case Some(FetchFailed(f)) => rest != [] && c.last != [] && exists g: nat :: FirstFault(oc, c.Made(), g, f)
    case Some(WriteFailed) => rest != [] && rest[0].done && exists b: nat :: !env.write(|out|, b)
  }

  /** No round began under a done context, and none but a last one failed. */
  ghost predicate Unhindered(env: Env, oc: Outcomes, c: Course) {
    NoFault(oc, c.settled) && forall r: nat :: r < c.rounds || (r == c.rounds && c.last != []) ==> !env.stop(r)
  }

  /** Why and where a run stopped: the emitted segments `out` and the pending ones `rest`. */
  ghost predicate Stops(p: Params, env: Env, oc: Outcomes, failure: Option<Failure>,
                        out: seq<Seg>, rest: seq<Seg>, c: Course) {
    && Tiles(AreaOf(p), out + rest)
    && AllDone(out) && AllFilled(oc, c.Made(), out + rest)
    && |RowsOf(out)| <= p.MaxTotal()
    && Unhindered(env, oc, c)
    && Reason(p, env, oc, failure, out, rest, c)
  }

  // ---------------------------------------------------------------- emission

  /** Hands one finished segment to the sink, unless that would exceed the limit. */
  method EmitOne(env: Env, p: Params, sink: Local, head: Seg, total: nat, k: nat,
                 ghost out: seq<Seg>, ghost base: Table)
      returns (failure: Option<Failure>, total': nat, ghost partial: seq<LogItem>)
    requires total == |RowsOf(out)| && k == |out| && sink.rows == UpsertAll(base, RowsOf(out))
    modifies sink`rows
    ensures failure.None? ==>
      total' == |RowsOf(out + [head])| <= p.MaxTotal() && sink.rows == UpsertAll(base, RowsOf(out + [head]))
    ensures failure.Some? ==>
      && sink.rows == UpsertAll(base, RowsOf(out) + partial)
      && ((failure.value == RowLimit && partial == [] && |RowsOf(out)| + |head.rows| > p.MaxTotal())
       || (failure.value == WriteFailed && partial <= head.rows && exists b: nat :: !env.write(|out|, b)))
  {
    total', partial := total + |head.rows|, [];
    RowsSnoc(out, head);
    if total' > p.MaxTotal() {
      assert RowsOf(out) + partial == RowsOf(out);
      return Some(RowLimit), total', partial;
    }
    var ok, n := sink.Upsert(head.rows, (b: nat) => env.write(k, b));
    partial := head.rows[..n];
    UpsertConcat(base, RowsOf(out), partial);
    if !ok {
      return Some(WriteFailed), total', partial;
    }
    assert partial == head.rows;
    failure := None;
  }

  /** Hands the finished segments at the head of the list to the sink. */
  method EmitDone(env: Env, p: Params, prog: Progress, sink: Local, queue: seq<Seg>, total: nat, k: nat,
                  ghost out: seq<Seg>, ghost base: Table)
      returns (failure: Option<Failure>, queue': seq<Seg>, total': nat, k': nat,
               ghost out': seq<Seg>, ghost partial: seq<LogItem>)
    requires AllDone(out) && total == |RowsOf(out)| <= p.MaxTotal() && k == |out|
    requires sink.rows == UpsertAll(base, RowsOf(out))
    modifies prog`segDone, prog`rows, sink`rows
    ensures k' == |out'| && out' + queue' == out + queue && AllDone(out')
    ensures |RowsOf(out')| <= p.MaxTotal()
    ensures prog.segDone + |out| == old(prog.segDone) + |out'|
    ensures prog.rows + |RowsOf(out)| == old(prog.rows) + |RowsOf(out')|
    ensures sink.rows == UpsertAll(base, RowsOf(out') + partial)
    ensures failure.None? ==> total' == |RowsOf(out')| && partial == [] && (queue' == [] || !queue'[0].done)
    ensures failure.Some? ==>
      && queue' != [] && queue'[0].done
      && ((failure.value == RowLimit && partial == [] && |RowsOf(out')| + |queue'[0].rows| > p.MaxTotal())
       || (failure.value == WriteFailed && partial <= queue'[0].rows && exists b: nat :: !env.write(|out'|, b)))
  {
    failure, queue', total', k', out', partial := None, queue, total, k, out, [];
    while |queue'| > 0 && queue'[0].done
      invariant k' == |out'| && out' + queue' == out + queue && AllDone(out')
      invariant total' == |RowsOf(out')| <= p.MaxTotal()
      invariant prog.segDone + |out| == old(prog.segDone) + |out'|
      invariant prog.rows + |RowsOf(out)| == old(prog.rows) + |RowsOf(out')|
      invariant sink.rows == UpsertAll(base, RowsOf(out')) && failure.None? && partial == []
      decreases |queue'|
    {
      var head := queue'[0];
      failure, total', partial := EmitOne(env, p, sink, head, total', k', out', base);
      if failure.Some? {
        return;
      }
      RowsSnoc(out', head);
      out', queue', k', partial := out' + [head], queue'[1..], k' + 1, [];
      prog.segDone := prog.segDone + 1;
      prog.rows := prog.rows + |head.rows|;
    }
    assert RowsOf(out') + partial == RowsOf(out');
  }

  /** The counters and the table when the loop began. */
  datatype Base = Base(short: nat, calls: nat, segTotal: nat, segDone: nat, rows: nat, splits: nat, table: Table)

  ghost function BaseOf(prog: Progress, sink: Local): Base
    reads prog, sink
  {
    Base(prog.short, prog.calls, prog.segTotal, prog.segDone, prog.rows, prog.splits, sink.rows)
  }

  /** Counters and table show what was fetched, cut and emitted since: all fetches made, the
      cuts of the complete rounds, `out` and, of a failed write, `partial`. */
  ghost predicate Shows(prog: Progress, sink: Local, b: Base, oc: Outcomes, c: Course,
                        out: seq<Seg>, partial: seq<LogItem>)
    reads prog, sink
  {
    && CountersShow(prog, b.short, b.calls, oc, c.Made())
    && prog.splits == b.splits + Spent(oc, c.settled).splits
    && prog.segTotal == b.segTotal + Spent(oc, c.settled).splits
    && prog.segDone == b.segDone + |out| && prog.rows == b.rows + |RowsOf(out)|
    && sink.rows == UpsertAll(b.table, RowsOf(out) + partial)
  }

  // ---------------------------------------------------------------- one round

  lemma {:induction false} NoErrs(oc: Outcomes, made: seq<Seg>, n: nat)
    requires n <= |made|
    ensures NoFault(oc, made) ==> SpentBy(oc, made, n).errs == 0
    ensures SpentBy(oc, made, n).fetches == n
  {
    if n > 0 {
      NoErrs(oc, made, n - 1);
    }
  }

  /** The run of fetches made, and then of the picked segments, up to one that failed or to the end. */
  lemma PickedFaults(oc: Outcomes, made: seq<Seg>, q: seq<Seg>, idx: seq<nat>, res: seq<SegResult>, n: nat)
    requires forall k :: 0 <= k < |idx| ==> idx[k] < |q|
    requires NoFault(oc, made) && ResultsOf(oc, |made|, q, idx, res, |idx|)
    requires n <= |idx| && forall k :: 0 <= k < n ==> !res[k].Err?
    ensures var all := made + EntriesAt(q, idx, |idx|);
      && (n == |idx| ==> NoFault(oc, all))
      && (n < |idx| && res[n].Err? ==> FirstFault(oc, all, |made| + n, res[n].fault))
  {
    var all := made + EntriesAt(q, idx, |idx|);
    forall h: nat | h < |made| + n ensures !FetchOf(oc, h, all[h]).result.Err? {
      if h >= |made| {
        assert all[h] == q[idx[h - |made|]];
      }
    }
    if n < |idx| {
      assert all[|made| + n] == q[idx[n]];
    }
  }

  /** The outcomes of the picked segments, by list index. */
  ghost predicate ByPick(oc: Outcomes, g: nat, q: seq<Seg>, idx: seq<nat>, byIdx: map<nat, SegResult>) {
    && (forall i :: i in byIdx ==> i in idx)
    && (forall k :: 0 <= k < |idx| ==> idx[k] < |q| && idx[k] in byIdx)
    && (forall k :: 0 <= k < |idx| ==>
          !byIdx[idx[k]].Err? && byIdx[idx[k]] == FetchOf(oc, g + k, q[idx[k]]).result)
  }

  /** The first half of a round: the parallel fetches of the first unfinished segments. */
  method Probe(env: Env, p: Params, prog: Progress, queue: seq<Seg>, g: nat,
               ghost oc: Outcomes, ghost made: seq<Seg>, ghost short: int, ghost calls: int)
      returns (fault: Option<Fault>, idx: seq<nat>, byIdx: map<nat, SegResult>)
    requires Runs(oc, env, p.Cap()) && queue != [] && !queue[0].done
    requires g == |made| && NoFault(oc, made) && CountersShow(prog, short, calls, oc, made)
    modifies prog`short, prog`warns, prog`calls
    ensures Picks(queue, idx, p.Conc()) && |idx| == |Picked(queue, p.Conc(), 0)| > 0
    ensures CountersShow(prog, short, calls, oc, made + Picked(queue, p.Conc(), 0))
    ensures match fault
      case None => ByPick(oc, g, queue, idx, byIdx) && NoFault(oc, made + Picked(queue, p.Conc(), 0))
      case Some(f) => exists n: nat :: FirstFault(oc, made + Picked(queue, p.Conc(), 0), n, f)
  {
    idx := PickUndone(queue, p.Conc());
    var res := FetchAll(env, g, queue, idx, p.Cap(), prog, oc, made, short, calls);
    fault, byIdx := ByIndex(idx, res);
    if fault.Some? {
      ghost var k :| 0 <= k < |idx| && FirstErr(res[..], k) && res[k] == Err(fault.value);
      PickedFaults(oc, made, queue, idx, res[..], k);
    } else {
      PickedFaults(oc, made, queue, idx, res[..], |idx|);
    }
  }

  /** How far the run has come after a round that probes this list. */
  ghost function Next(p: Params, queue: seq<Seg>, c: Course, failed: bool): Course {
    var more := Picked(queue, p.Conc(), 0);
    if failed then Course(c.rounds, c.settled, more) else Course(c.rounds + 1, c.settled + more, [])
  }

  /** The counters show the fetches of a round, but not yet its cuts. */
  ghost predicate Probed(prog: Progress, sink: Local, b: Base, oc: Outcomes, p: Params, queue: seq<Seg>,
                         out: seq<Seg>, c: Course)
    reads prog, sink
  {
    && CountersShow(prog, b.short, b.calls, oc, c.settled + Picked(queue, p.Conc(), 0))
    && prog.splits == b.splits + Spent(oc, c.settled).splits
    && prog.segTotal == b.segTotal + Spent(oc, c.settled).splits
    && prog.segDone == b.segDone + |out| && prog.rows == b.rows + |RowsOf(out)|
    && sink.rows == UpsertAll(b.table, RowsOf(out) + [])
  }

  /** After a round that failed they show just that. */
  lemma ProbedShows(prog: Progress, sink: Local, b: Base, oc: Outcomes, p: Params, queue: seq<Seg>,
                    out: seq<Seg>, c: Course)
    requires Probed(prog, sink, b, oc, p, queue, out, c)
    ensures Shows(prog, sink, b, oc, Next(p, queue, c, true), out, [])
  {
  }

  /** ... and after one that completed its cuts besides. */
  lemma CutsShow(prog: Progress, sink: Local, b: Base, oc: Outcomes, p: Params, queue: seq<Seg>,
                 out: seq<Seg>, c: Course)
    requires CountersShow(prog, b.short, b.calls, oc, c.settled + Picked(queue, p.Conc(), 0))
    requires var cuts := Spent(oc, c.settled).splits + RoundTally(oc, |c.settled|, queue, p.Conc(), 0).splits;
      prog.splits == b.splits + cuts && prog.segTotal == b.segTotal + cuts
    requires prog.segDone == b.segDone + |out| && prog.rows == b.rows + |RowsOf(out)|
    requires sink.rows == UpsertAll(b.table, RowsOf(out) + [])
    ensures Shows(prog, sink, b, oc, Next(p, queue, c, false), out, [])
  {
    RoundSpends(oc, c.settled, queue, p.Conc(), 0);
    var c' := Next(p, queue, c, false);
    assert c'.Made() == c'.settled;
  }

  /** The second half of a round, which shows the cuts as well. */
  method NextList(p: Params, prog: Progress, sink: Local, queue: seq<Seg>, idx: seq<nat>, byIdx: map<nat, SegResult>,
                  ghost b: Base, ghost oc: Outcomes, ghost out: seq<Seg>, ghost c: Course)
      returns (queue': seq<Seg>)
    requires Picks(queue, idx, p.Conc()) && ByPick(oc, |c.settled|, queue, idx, byIdx)
    requires Probed(prog, sink, b, oc, p, queue, out, c)
    modifies prog`segTotal, prog`splits
    ensures queue' == Round(oc, |c.settled|, queue, p.Conc(), 0)
    ensures Shows(prog, sink, b, oc, Next(p, queue, c, false), out, [])
  {
    queue' := Rebuild(oc, |c.settled|, p.Conc(), queue, idx, byIdx, prog);
    CutsShow(prog, sink, b, oc, p, queue, out, c);
  }

  /** What a round returns: the next list, or the first fault of its fetches. */
  ghost predicate Rounded(oc: Outcomes, p: Params, queue: seq<Seg>, c: Course,
                          failure: Option<Failure>, queue': seq<Seg>, g': nat) {
    var all := c.settled + Picked(queue, p.Conc(), 0);
    match failure
    case None => NoFault(oc, all) && queue' == Round(oc, |c.settled|, queue, p.Conc(), 0) && g' == |all|
    case Some(f) => f.FetchFailed? && queue' == queue && exists n: nat :: FirstFault(oc, all, n, f.fault)
  }

  /** One round: probe the first unfinished segments in parallel and rebuild the list. */
  method ProbeRound(env: Env, p: Params, prog: Progress, sink: Local, queue: seq<Seg>, g: nat, ghost b: Base,
                    ghost oc: Outcomes, ghost out: seq<Seg>, ghost c: Course)
      returns (failure: Option<Failure>, queue': seq<Seg>, g': nat)
    requires Runs(oc, env, p.Cap()) && queue != [] && !queue[0].done
    requires c.last == [] && g == |c.settled| && NoFault(oc, c.settled) && Shows(prog, sink, b, oc, c, out, [])
    modifies prog`short, prog`warns, prog`calls, prog`segTotal, prog`splits
    ensures Rounded(oc, p, queue, c, failure, queue', g') && Picked(queue, p.Conc(), 0) != []
    ensures Shows(prog, sink, b, oc, Next(p, queue, c, failure.Some?), out, [])
  {
    var fault, idx, byIdx;
    assert c.settled + [] == c.settled;
    fault, idx, byIdx := Probe(env, p, prog, queue, g, oc, c.settled, b.short, b.calls);
    assert Probed(prog, sink, b, oc, p, queue, out, c);
    if fault.Some? {
      ProbedShows(prog, sink, b, oc, p, queue, out, c);
      return Some(FetchFailed(fault.value)), queue, g;
    }
    queue' := NextList(p, prog, sink, queue, idx, byIdx, b, oc, out, c);
    return None, queue', g + |idx|;
  }

  // ---------------------------------------------------------------- the loop

  /** At every loop head: emitted and pending segments are what the rounds made of the initial
      list and tile the window, and finished ones hold what a fetch of that very window
      returned, not short unless counted. */
  ghost predicate Going(p: Params, oc: Outcomes, init: seq<Seg>, out: seq<Seg>, queue: seq<Seg>, c: Course) {
    && Reached(oc, p.Conc(), init, c, out + queue)
    && Tiles(AreaOf(p), out + queue)
    && AllDone(out)
    && AllFilled(oc, c.Made(), out + queue)
    && (Spent(oc, c.Made()).shorts == 0 ==> AllWhole(oc, c.Made(), out + queue))
  }

  /** What a faithful upstream has been asked so far and what is left to ask, together. */
  ghost function Account(log: set<LogItem>, cap: nat, segs: seq<Seg>, t: Tally): Tally {
    Tally(t.calls + Total(CallsLeft(log, cap), segs), t.shorts, t.splits + Total(CutsLeft(log, cap), segs), 0, 0)
  }

  /** ... is what the initial list asks for. */
  ghost predicate Paid(log: set<LogItem>, cap: nat, init: seq<Seg>, segs: seq<Seg>, t: Tally) {
    Account(log, cap, segs, t) == Account(log, cap, init, Tally(0, 0, 0, 0, 0))
  }

  lemma {:induction false} TilesNonEmpty(a: Area, c: Cursor, segs: seq<Seg>)
    requires After(a, c, segs).Some?
    ensures NonEmpty(segs)
    decreases |segs|
  {
    if segs != [] {
      TilesNonEmpty(a, Advance(a, c, segs[0]).value, segs[1..]);
      assert forall sg :: sg in segs <==> sg == segs[0] || sg in segs[1..];
    }
  }

  lemma PendingNonEmpty(a: Area, out: seq<Seg>, queue: seq<Seg>)
    requires Tiles(a, out + queue)
    ensures NonEmpty(queue)
  {
    if a.s <= a.e {
      TilesNonEmpty(a, Cursor(0, a.s), out + queue);
      assert forall sg :: sg in queue ==> sg in out + queue;
    }
  }

  /** A round leaves the finished segments at the head of the list alone. */
  lemma {:induction false} RoundSkipsDone(oc: Outcomes, g: nat, out: seq<Seg>, queue: seq<Seg>, room: nat, i: nat)
    requires AllDone(out) && i <= |out|
    ensures Round(oc, g, out + queue, room, i) == out[i..] + Round(oc, g, queue, room, 0)
    ensures Picked(out + queue, room, i) == Picked(queue, room, 0)
    decreases |out| - i
  {
    if i == |out| {
      RoundShift(oc, g, out + queue, |out|, queue, room, 0);
      assert out[i..] + Round(oc, g, queue, room, 0) == Round(oc, g, queue, room, 0);
    } else {
      assert (out + queue)[i] == out[i] && out[i] in out;
      RoundSkipsDone(oc, g, out, queue, room, i + 1);
      assert [out[i]] + (out[i + 1..] + Round(oc, g, queue, room, 0)) == out[i..] + Round(oc, g, queue, room, 0);
    }
  }

  /** Lists that agree from these positions on make the same of a round. */
  lemma {:induction false} RoundShift(oc: Outcomes, g: nat, all: seq<Seg>, j: nat, queue: seq<Seg>, room: nat, i: nat)
    requires i <= |queue| && j <= |all| && |all| - j == |queue| - i
    requires forall k :: i <= k < |queue| ==> all[k + (j - i)] == queue[k]
    ensures Round(oc, g, all, room, j) == Round(oc, g, queue, room, i)
    ensures Picked(all, room, j) == Picked(queue, room, i)
    decreases |queue| - i
  {
    if i < |queue| {
      assert all[i + (j - i)] == queue[i];
      if queue[i].done || room == 0 {
        RoundShift(oc, g, all, j + 1, queue, room, i + 1);
      } else {
        RoundShift(oc, g + 1, all, j + 1, queue, room - 1, i + 1);
      }
    }
  }

  /** A complete round moves the course on by one round and its fetches. */
  lemma RoundReaches(oc: Outcomes, conc: nat, init: seq<Seg>, c: Course, out: seq<Seg>, queue: seq<Seg>)
    requires Reached(oc, conc, init, c, out + queue) && c.last == [] && AllDone(out)
    ensures var next := Course(c.rounds + 1, c.settled + Picked(queue, conc, 0), []);
      Reached(oc, conc, init, next, out + Round(oc, |c.settled|, queue, conc, 0))
  {
    RoundSkipsDone(oc, |c.settled|, out, queue, conc, 0);
    assert out[0..] == out;
  }

  lemma RoundKeepsFilled(p: Params, oc: Outcomes, made: seq<Seg>, out: seq<Seg>, queue: seq<Seg>, room: nat)
    requires AllFilled(oc, made, out + queue)
    requires Spent(oc, made).shorts == 0 ==> AllWhole(oc, made, out + queue)
    ensures var all, next := made + Picked(queue, room, 0), out + Round(oc, |made|, queue, room, 0);
      && AllFilled(oc, all, out + queue) && AllFilled(oc, all, next)
      && (Spent(oc, all).shorts == 0 ==> AllWhole(oc, all, out + queue) && AllWhole(oc, all, next))
  {
    var all, next := made + Picked(queue, room, 0), Round(oc, |made|, queue, room, 0);
    FilledStays(oc, made, Picked(queue, room, 0), out + queue);
    assert forall sg :: sg in out + queue <==> sg in out || sg in queue;
    assert forall sg :: sg in out + next <==> sg in out || sg in next;
    RoundFills(oc, all, |made|, queue, room, 0);
    RoundSpends(oc, made, queue, room, 0);
  }

  lemma RoundShrinksWeight(p: Params, oc: Outcomes, made: seq<Seg>, out: seq<Seg>, queue: seq<Seg>, room: nat)
    requires Sane(oc) && Tiles(AreaOf(p), out + queue)
    requires NoFault(oc, made + Picked(queue, room, 0)) && Picked(queue, room, 0) != []
    ensures Total(Weight(), out + Round(oc, |made|, queue, room, 0)) < Total(Weight(), out + queue)
  {
    PendingNonEmpty(AreaOf(p), out, queue);
    RoundSpends(oc, made, queue, room, 0);
    NoErrs(oc, made + Picked(queue, room, 0), |made + Picked(queue, room, 0)|);
    NoErrs(oc, made, |made|);
    RoundShrinks(oc, |made|, queue, room, 0);
    assert queue[0..] == queue;
    TotalConcat(Weight(), out, queue);
    TotalConcat(Weight(), out, Round(oc, |made|, queue, room, 0));
  }

  lemma RoundKeepsPaid(log: set<LogItem>, cap: nat, init: seq<Seg>, oc: Outcomes, made: seq<Seg>,
                       list: seq<Seg>, room: nat)
    requires Exact(oc, log, cap) && Paid(log, cap, init, list, Spent(oc, made))
    ensures Paid(log, cap, init, Round(oc, |made|, list, room, 0), Spent(oc, made + Picked(list, room, 0)))
  {
    RoundPays(oc, log, cap, |made|, list, room, 0);
    RoundSpends(oc, made, list, room, 0);
    assert list[0..] == list;
  }

  lemma {:induction false} SettlesHasNoFault(oc: Outcomes, log: set<LogItem>, cap: nat, made: seq<Seg>, n: nat)
    requires Settles(oc, log, cap) && n <= |made|
    ensures NoFault(oc, made) && SpentBy(oc, made, n).shorts == 0
  {
    forall g | 0 <= g < |made| ensures !FetchOf(oc, g, made[g]).result.Err? {
      var sg := made[g];
      assert oc(g, sg.user, sg.s, sg.e).result == ExactOutcome(log, sg.user, sg.s, sg.e, cap).result;
    }
    if n > 0 {
      SettlesHasNoFault(oc, log, cap, made, n - 1);
      assert !oc(n - 1, made[n - 1].user, made[n - 1].s, made[n - 1].e).short;
    }
  }

  /** A complete round keeps the loop's invariants and uses up some of the weight. */
  lemma TurnCompletes(p: Params, env: Env, oc: Outcomes, init: seq<Seg>, out: seq<Seg>, queue: seq<Seg>, c: Course)
    requires Sane(oc) && Going(p, oc, init, out, queue, c) && c.last == []
    requires Unhindered(env, oc, c) && !env.stop(c.rounds)
    requires NoFault(oc, c.settled + Picked(queue, p.Conc(), 0)) && Picked(queue, p.Conc(), 0) != []
    ensures var next := Round(oc, |c.settled|, queue, p.Conc(), 0);
      var c' := Next(p, queue, c, false);
      && Going(p, oc, init, out, next, c') && Unhindered(env, oc, c')
      && Total(Weight(), out + next) < Total(Weight(), out + queue)
  {
    var made, conc := c.settled, p.Conc();
    var c' := Next(p, queue, c, false);
    assert c.Made() == made && c'.Made() == c'.settled;
    RoundReaches(oc, conc, init, c, out, queue);
    RoundKeepsFilled(p, oc, made, out, queue, conc);
    RoundKeepsTiling(AreaOf(p), oc, |made|, out, queue, conc);
    RoundShrinksWeight(p, oc, made, out, queue, conc);
  }

  /** A round that failed leaves the work list as it was. */
  lemma TurnFails(p: Params, env: Env, oc: Outcomes, init: seq<Seg>, out: seq<Seg>, queue: seq<Seg>, c: Course)
    requires Going(p, oc, init, out, queue, c) && c.last == []
    requires Unhindered(env, oc, c) && !env.stop(c.rounds)
    ensures var c' := Next(p, queue, c, true);
      Going(p, oc, init, out, queue, c') && Unhindered(env, oc, c')
  {
    assert c.Made() == c.settled;
    RoundSkipsDone(oc, |c.settled|, out, queue, p.Conc(), 0);
    RoundKeepsFilled(p, oc, c.settled, out, queue, p.Conc());
  }

  /** The second half of a loop turn, with what it does to the loop's invariants. */
  method Turn(env: Env, p: Params, prog: Progress, sink: Local, queue: seq<Seg>, g: nat, ghost b: Base,
              ghost oc: Outcomes, ghost init: seq<Seg>, ghost out: seq<Seg>, ghost c: Course)
      returns (failure: Option<Failure>, queue': seq<Seg>, g': nat, ghost c': Course)
    requires Runs(oc, env, p.Cap()) && Sane(oc) && queue != [] && !queue[0].done
    requires Going(p, oc, init, out, queue, c) && Shows(prog, sink, b, oc, c, out, [])
    requires c.last == [] && g == |c.settled| && Unhindered(env, oc, c) && !env.stop(c.rounds)
    modifies prog`short, prog`warns, prog`calls, prog`segTotal, prog`splits
    ensures Going(p, oc, init, out, queue', c') && Shows(prog, sink, b, oc, c', out, [])
    ensures Unhindered(env, oc, c')
    ensures failure.None? ==>
      && c'.last == [] && g' == |c'.settled| && c'.rounds == c.rounds + 1
      && Total(Weight(), out + queue') < Total(Weight(), out + queue)
    ensures failure.Some? ==>
      failure.value.FetchFailed? && queue' == queue && Reason(p, env, oc, failure, out, queue', c')
  {
    failure, queue', g' := ProbeRound(env, p, prog, sink, queue, g, b, oc, out, c);
    c' := Next(p, queue, c, failure.Some?);
    if failure.Some? {
      TurnFails(p, env, oc, init, out, queue, c);
    } else {
      TurnCompletes(p, env, oc, init, out, queue, c);
    }
  }

  /** A run that stops between two list entries stops for a reason and lacks nothing before them. */
  lemma GoingStops(p: Params, env: Env, oc: Outcomes, init: seq<Seg>, failure: Option<Failure>,
                   out: seq<Seg>, rest: seq<Seg>, c: Course)
    requires Going(p, oc, init, out, rest, c) && |RowsOf(out)| <= p.MaxTotal() && Unhindered(env, oc, c)
    requires Reason(p, env, oc, failure, out, rest, c)
    ensures Stops(p, env, oc, failure, out, rest, c)
    ensures Spent(oc, c.Made()).shorts == 0 ==> AllWhole(oc, c.Made(), out)
  {
  }

  /** One pass through the loop: emits what is finished, then probes unless nothing is left. */
  method Pass(env: Env, p: Params, prog: Progress, sink: Local, queue: seq<Seg>, total: nat, k: nat, r: nat, g: nat,
              ghost b: Base, ghost oc: Outcomes, ghost init: seq<Seg>, ghost out: seq<Seg>, ghost c: Course)
      returns (failure: Option<Failure>, queue': seq<Seg>, total': nat, k': nat, g': nat, ghost out': seq<Seg>,
               ghost partial: seq<LogItem>, ghost c': Course)
    requires Runs(oc, env, p.Cap()) && Sane(oc) && Going(p, oc, init, out, queue, c) && queue != []
    requires Unhindered(env, oc, c) && c.last == [] && g == |c.settled| && r == c.rounds && k == |out|
    requires total == |RowsOf(out)| <= p.MaxTotal() && Shows(prog, sink, b, oc, c, out, [])
    modifies prog`short, prog`warns, prog`calls, prog`segTotal, prog`splits, prog`segDone, prog`rows, sink`rows
    ensures Going(p, oc, init, out', queue', c') && Shows(prog, sink, b, oc, c', out', partial)
    ensures Unhindered(env, oc, c') && |RowsOf(out')| <= p.MaxTotal()
    ensures failure.None? ==>
      && c'.last == [] && g' == |c'.settled| && k' == |out'| && (queue' == [] || c'.rounds == r + 1)
      && total' == |RowsOf(out')| && partial == []
      && Total(Weight(), out' + queue') <= Total(Weight(), out + queue)
      && (queue' == [] || Total(Weight(), out' + queue') < Total(Weight(), out + queue))
    ensures failure.Some? ==>
      && Reason(p, env, oc, failure, out', queue', c')
      && partial <= queue'[0].rows && (partial != [] ==> queue'[0].done)
  {
    g', c' := g, c;
    assert RowsOf(out) + [] == RowsOf(out);
    failure, queue', total', k', out', partial := EmitDone(env, p, prog, sink, queue, total, k, out, b.table);
    if failure.Some? || |queue'| == 0 {
      return;
    }
    if env.stop(r) {
      failure := Some(Stopped);
      return;
    }
    failure, queue', g', c' := Turn(env, p, prog, sink, queue', g, b, oc, init, out', c);
  }

  /** The loop of `Collect` from the initial list on. */
  method Pump(env: Env, p: Params, prog: Progress, sink: Local, init: seq<Seg>, ghost oc: Outcomes)
      returns (failure: Option<Failure>, ghost out: seq<Seg>, ghost rest: seq<Seg>, ghost partial: seq<LogItem>,
               ghost c: Course)
    requires Runs(oc, env, p.Cap()) && Sane(oc) && Going(p, oc, init, [], init, Course(0, [], []))
    modifies prog`short, prog`warns, prog`calls, prog`segTotal, prog`splits, prog`segDone, prog`rows, sink`rows
    ensures Stops(p, env, oc, failure, out, rest, c) && Reached(oc, p.Conc(), init, c, out + rest)
    ensures Shows(prog, sink, old(BaseOf(prog, sink)), oc, c, out, partial)
    ensures Spent(oc, c.Made()).shorts == 0 ==> AllWhole(oc, c.Made(), out)
    ensures failure.None? ==> partial == [] && c.last == []
    ensures failure.Some? ==> partial <= rest[0].rows && (partial != [] ==> rest[0].done)
  {
    var queue := init;
    ghost var b := BaseOf(prog, sink);
    var total, k, r, g := 0, 0, 0, 0;
    out, partial, c := [], [], Course(0, [], []);
    assert [] + queue == queue && RowsOf([]) + [] == [] && c.Made() == [];
    while |queue| > 0
      invariant Going(p, oc, init, out, queue, c) && Shows(prog, sink, b, oc, c, out, [])
      invariant Unhindered(env, oc, c) && c.last == [] && g == |c.settled| && k == |out|
      invariant queue == [] || r == c.rounds
      invariant total == |RowsOf(out)| <= p.MaxTotal() && partial == []
      decreases Total(Weight(), out + queue), |queue|
    {
      failure, queue, total, k, g, out, partial, c :=
        Pass(env, p, prog, sink, queue, total, k, r, g, b, oc, init, out, c);
      if failure.Some? {
        rest := queue;
        GoingStops(p, env, oc, init, failure, out, rest, c);
        return;
      }
      r := r + 1;
    }
    failure, rest := None, [];
    GoingStops(p, env, oc, init, failure, out, rest, c);
  }

  /** Fetches the window segment by segment into `sink`.  The run is determined by its number
      of rounds: the work list, the fetches made, and with them the counters. */
  method Collect(env: Env, p: Params, prog: Progress, sink: Local, ghost oc: Outcomes)
      returns (failure: Option<Failure>, ghost out: seq<Seg>, ghost rest: seq<Seg>, ghost partial: seq<LogItem>,
               ghost c: Course)
    requires Runs(oc, env, p.Cap())
    modifies prog, sink`rows
    ensures Stops(p, env, oc, failure, out, rest, c)
    ensures Reached(oc, p.Conc(), AllDaySegs(p.Targets(), p.start, p.end), c, out + rest)
    ensures var b := old(BaseOf(prog, sink));
      Shows(prog, sink, b.(segTotal := b.segTotal + |AllDaySegs(p.Targets(), p.start, p.end)|), oc, c, out, partial)
    ensures Spent(oc, c.Made()).shorts == 0 ==> AllWhole(oc, c.Made(), out)
    ensures failure.None? ==> partial == [] && c.last == []
    ensures failure.Some? ==> rest != [] && partial <= rest[0].rows && (partial != [] ==> rest[0].done)
  {
    var queue := InitialSegments(p);
    InitialTiles(p);
    RunsSane(oc, env, p.Cap());
    prog.segTotal := prog.segTotal + |queue|;
    assert [] + queue == queue;
    failure, out, rest, partial, c := Pump(env, p, prog, sink, queue, oc);
  }

  /** Against an upstream that pages a static log exactly, every run, however it ended, has
      paid for what it asked. */
  lemma {:induction false} ReachedIsPaid(log: set<LogItem>, cap: nat, oc: Outcomes, conc: nat, init: seq<Seg>, r: nat)
    requires Exact(oc, log, cap)
    ensures var w := WorkAfter(oc, conc, init, r); Paid(log, cap, init, w.list, Spent(oc, w.made))
    decreases r
  {
    if r > 0 {
      ReachedIsPaid(log, cap, oc, conc, init, r - 1);
      var w := WorkAfter(oc, conc, init, r - 1);
      RoundKeepsPaid(log, cap, init, oc, w.made, w.list, conc);
    }
  }
}
