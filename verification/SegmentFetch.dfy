/** Fetching one time segment (backend/internal/detail/detail.go: retry, fetchSeg).

    The upstream is an oracle: the response to call number `n` of segment fetch
    number `g` is an arbitrary function of `g`, `n` and the request, so a statement
    about every oracle covers every upstream, honest or not, changing or not, and
    every interleaving of the segment fetches that run in parallel. */
module SegmentFetch {
  import opened LogRows

  const PAGE_SIZE: nat := 100
  const SEG_RETRIES: nat := 2

  datatype LogOpt = LogOpt(page: nat, start: int, end: int, user: string)

  datatype Fault = RateLimited | Canceled | Upstream

  datatype Response = Page(items: seq<LogItem>, total: nat) | Failed(fault: Fault)

  /** What the outside world does during one `Collect`. */
  datatype Env = Env(
    fetch: (nat, nat, LogOpt) -> Response,  // segment fetch g, call n
    ctxErr: (nat, nat) -> bool,             // the context is done right after that call
    ctxDone: (nat, nat) -> bool,            // the context ends while backing off after that call
    stop: nat -> bool,                      // the context is done at the head of round r
    write: (nat, nat) -> bool)              // INSERT number b of emission k succeeds

  datatype SegResult = Rows(rows: seq<LogItem>) | Split | Err(fault: Fault)

  /** Counters shared by the segment fetches of a job; messages are only counted.  Every call
      of the upstream goes through `Call`, and the ghost field `calls` counts them. */
  class Progress {
    var segTotal: nat
    var segDone: nat
    var splits: nat
    var short: nat
    var rows: nat
    var warns: nat
    ghost var calls: nat

    constructor ()
      ensures segTotal == segDone == splits == short == rows == warns == calls == 0
    {
      segTotal, segDone, splits, short, rows, warns, calls := 0, 0, 0, 0, 0, 0, 0;
    }

    method Call(env: Env, g: nat, n: nat, opt: LogOpt) returns (resp: Response)
      modifies `calls
      ensures resp == env.fetch(g, n, opt) && calls == old(calls) + 1
    {
      calls := calls + 1;
      return env.fetch(g, n, opt);
    }

    method Warn()
      modifies `warns
      ensures warns == if old(warns) < 20 then old(warns) + 1 else old(warns)
    {
      if warns < 20 {
        warns := warns + 1;
      }
    }
  }

  // ---------------------------------------------------------------- retry

  datatype Tried = Tried(resp: Response, next: nat)

  /** `retry` from attempt `i` on; `next` numbers the call that would come after it. */
  function Attempt(env: Env, g: nat, n: nat, opt: LogOpt, i: nat): (t: Tried)
    requires i <= SEG_RETRIES
    ensures t.next > n
    decreases SEG_RETRIES - i
  {
    var r := env.fetch(g, n, opt);
    if r.Page? || env.ctxErr(g, n) || r.fault.RateLimited? then Tried(r, n + 1)
    else if env.ctxDone(g, n) then Tried(Failed(Canceled), n + 1)
    else if i == SEG_RETRIES then Tried(r, n + 1)
    else Attempt(env, g, n + 1, opt, i + 1)
  }

  /** The call failed, but not with a 429, and the context stayed alive: it may be repeated. */
  ghost predicate Transient(env: Env, g: nat, n: nat, opt: LogOpt) {
    env.fetch(g, n, opt).Failed? && !env.fetch(g, n, opt).fault.RateLimited? && !env.ctxErr(g, n) && !env.ctxDone(g, n)
  }

  /** Calls `n` to `c - 1` failed in a way that lets them be repeated. */
  ghost predicate AllTransient(env: Env, g: nat, n: nat, c: nat, opt: LogOpt) {
    forall k: nat :: n <= k < c ==> Transient(env, g, k, opt)
  }

  /** The first page answered within three calls is what `retry` returns, and it fails only at a
      429, under a done context, or after three calls. */
  lemma {:induction false} RetryPersists(env: Env, g: nat, n: nat, opt: LogOpt, i: nat)
    requires i <= SEG_RETRIES
    ensures var t := Attempt(env, g, n, opt, i);
      && (forall c: nat :: n <= c <= n + (2 - i) && env.fetch(g, c, opt).Page? && AllTransient(env, g, n, c, opt)
            ==> t == Tried(env.fetch(g, c, opt), c + 1))
      && (t.resp.Failed? ==>
            || env.fetch(g, t.next - 1, opt) == Failed(RateLimited)
            || env.ctxErr(g, t.next - 1) || env.ctxDone(g, t.next - 1)
            || t.next == n + (3 - i))
    decreases SEG_RETRIES - i
  {
    if Transient(env, g, n, opt) && i < SEG_RETRIES {
      RetryPersists(env, g, n + 1, opt, i + 1);
      forall c: nat | n <= c <= n + (2 - i) && env.fetch(g, c, opt).Page? && AllTransient(env, g, n, c, opt)
        ensures Attempt(env, g, n, opt, i) == Tried(env.fetch(g, c, opt), c + 1)
      {
        assert AllTransient(env, g, n + 1, c, opt);
      }
    } else {
      assert forall c: nat :: n < c && AllTransient(env, g, n, c, opt) ==> Transient(env, g, n, opt);
    }
  }

  method Retry(env: Env, g: nat, n: nat, opt: LogOpt, prog: Progress) returns (resp: Response, next: nat)
    modifies prog`calls
    ensures Tried(resp, next) == Attempt(env, g, n, opt, 0)
    ensures prog.calls + n == old(prog.calls) + next
    // A page answered within three calls, after failures that may be repeated, is the answer.
    ensures forall c: nat :: n <= c <= n + 2 && env.fetch(g, c, opt).Page? && AllTransient(env, g, n, c, opt)
              ==> resp == env.fetch(g, c, opt) && next == c + 1
    // It fails only at a 429, under a done context, or after three calls.
    ensures resp.Failed? ==>
      || env.fetch(g, next - 1, opt) == Failed(RateLimited)
      || env.ctxErr(g, next - 1) || env.ctxDone(g, next - 1)
      || next == n + 3
  {
    RetryPersists(env, g, n, opt, 0);
    next := n;
    resp := Failed(Upstream);
    var i := 0;
    while i <= SEG_RETRIES
      invariant i <= SEG_RETRIES + 1 && next == n + i && prog.calls == old(prog.calls) + i
      invariant i <= SEG_RETRIES ==> Attempt(env, g, n, opt, 0) == Attempt(env, g, next, opt, i)
      invariant i == SEG_RETRIES + 1 ==> Attempt(env, g, n, opt, 0) == Tried(resp, next)
    {
      resp := prog.Call(env, g, next, opt);
      next := next + 1;
      if resp.Page? || env.ctxErr(g, next - 1) || resp.fault.RateLimited? {
        return;
      }
      if env.ctxDone(g, next - 1) {
        return Failed(Canceled), next;
      }
      i := i + 1;
    }
  }

  /** At most three calls; a page, a 429 and a cancelled context all end the attempts at
      once, so a rate-limit failure is never repeated here: every call but the last one
      failed for another reason. */
  lemma {:induction false} RetryNeverRepeatsRateLimits(env: Env, g: nat, n: nat, opt: LogOpt, i: nat)
    requires i <= SEG_RETRIES
    ensures var t := Attempt(env, g, n, opt, i);
      && n < t.next <= n + 1 + SEG_RETRIES - i
      && (t.resp == env.fetch(g, t.next - 1, opt) || (t.resp == Failed(Canceled) && env.ctxDone(g, t.next - 1)))
      && (forall k: nat :: n <= k < t.next - 1 ==>
            var r := env.fetch(g, k, opt);
            r.Failed? && !r.fault.RateLimited? && !env.ctxErr(g, k) && !env.ctxDone(g, k))
    decreases SEG_RETRIES - i
  {
    var r := env.fetch(g, n, opt);
    if r.Page? || env.ctxErr(g, n) || r.fault.RateLimited? || env.ctxDone(g, n) || i == SEG_RETRIES {
    } else {
      RetryNeverRepeatsRateLimits(env, g, n + 1, opt, i + 1);
    }
  }

  // ---------------------------------------------------------------- de-duplication

  predicate HasId(rows: seq<LogItem>, id: Id) {
    exists r :: r in rows && r.id == id
  }

  /** Append the items whose id is new; rows without an id are always kept. */
  function Absorb(rows: seq<LogItem>, items: seq<LogItem>): seq<LogItem> {
    if items == [] then rows
    else
      var acc, it := Absorb(rows, items[..|items| - 1]), items[|items| - 1];
      if it.id != 0 && HasId(acc, it.id) then acc else acc + [it]
  }

  lemma {:induction false} AbsorbKeepsDistinct(rows: seq<LogItem>, items: seq<LogItem>)
    requires DistinctIds(rows)
    ensures DistinctIds(Absorb(rows, items))
    ensures forall r :: r in Absorb(rows, items) ==> r in rows || r in items
    ensures |rows| <= |Absorb(rows, items)|
  {
    if items == [] {
    } else {
      AbsorbKeepsDistinct(rows, items[..|items| - 1]);
    }
  }

  /** Item `k` is new: it has no id, or its id occurs neither among the rows nor before it. */
  ghost predicate NewAt(rows: seq<LogItem>, items: seq<LogItem>, k: nat)
    requires k < |items|
  {
    items[k].id == 0 || (!HasId(rows, items[k].id) && forall j :: 0 <= j < k ==> items[j].id != items[k].id)
  }

  /** `out` holds the first `n` items, in order, that are new. */
  ghost predicate KeepsNew(rows: seq<LogItem>, items: seq<LogItem>, n: nat, out: seq<LogItem>, at: seq<nat>) {
    && n <= |items| && |out| == |rows| + |at| && rows <= out
    && (forall i :: 0 <= i < |at| ==> at[i] < n && NewAt(rows, items, at[i]) && out[|rows| + i] == items[at[i]])
    && (forall i, j :: 0 <= i < j < |at| ==> at[i] < at[j])
    && (forall k :: 0 <= k < n && NewAt(rows, items, k) ==> k in at)
    && (forall k :: 0 <= k < n && items[k].id != 0 ==> HasId(out, items[k].id))
  }

  /** Absorbing keeps the rows and appends exactly the new items, in their order. */
  lemma {:induction false} AbsorbKeepsNew(rows: seq<LogItem>, items: seq<LogItem>, n: nat) returns (at: seq<nat>)
    requires n <= |items|
    ensures KeepsNew(rows, items, n, Absorb(rows, items[..n]), at)
    decreases n
  {
    at := [];
    if n > 0 {
      at := AbsorbKeepsNew(rows, items, n - 1);
      var acc, it := Absorb(rows, items[..n - 1]), items[n - 1];
      assert items[..n][..n - 1] == items[..n - 1] && items[..n][n - 1] == it;
      if it.id != 0 {
        IdsKept(rows, items, n - 1, acc, at, it.id);
      }
      if it.id == 0 || !HasId(acc, it.id) {
        assert (acc + [it])[|acc|] == it;
        at := at + [n - 1];
      }
    }
  }

  /** The ids of the result are those of the rows and of the items absorbed. */
  lemma IdsKept(rows: seq<LogItem>, items: seq<LogItem>, n: nat, out: seq<LogItem>, at: seq<nat>, id: Id)
    requires KeepsNew(rows, items, n, out, at) && id != 0
    ensures HasId(out, id) <==> HasId(rows, id) || exists j :: 0 <= j < n && items[j].id == id
  {
    if HasId(out, id) {
      var r :| r in out && r.id == id;
      var i :| 0 <= i < |out| && out[i] == r;
      if i >= |rows| {
        assert items[at[i - |rows|]].id == id;
      } else {
        assert rows[i] == out[i] && rows[i] in rows;
      }
    }
  }

  /** Absorbing items that are all new is plain concatenation. */
  lemma {:induction false} AbsorbNew(rows: seq<LogItem>, items: seq<LogItem>)
    requires forall i, j :: 0 <= i < |rows| && 0 <= j < |items| ==> rows[i].id != items[j].id
    requires forall i, j :: 0 <= i < j < |items| ==> items[i].id != items[j].id
    ensures Absorb(rows, items) == rows + items
  {
    if items == [] {
    } else {
      var front := items[..|items| - 1];
      AbsorbNew(rows, front);
      assert rows + front + [items[|items| - 1]] == rows + items;
      assert !HasId(rows + front, items[|items| - 1].id);
    }
  }

  // ---------------------------------------------------------------- fetchSeg

  datatype Paged = Got(rows: seq<LogItem>, next: nat) | Broken(fault: Fault, next: nat)

  /** The paging loop of `fetchSeg` from page `page` on. */
  function Pages(env: Env, g: nat, n: nat, user: string, s: int, e: int, total: nat,
                 rows: seq<LogItem>, page: nat, maxPage: nat): Paged
    decreases maxPage + 1 - page
  {
    if |rows| < total && page <= maxPage then
      var t := Attempt(env, g, n, LogOpt(page, s, e, user), 0);
      match t.resp
      case Failed(f) => Broken(f, t.next)
      case Page(items, _) =>
        if items == [] then Got(rows, t.next)
        else Pages(env, g, t.next, user, s, e, total, Absorb(rows, items), page + 1, maxPage)
    else Got(rows, n)
  }

  datatype Fetched = Fetched(result: SegResult, calls: nat, short: bool)

  function PerPage(first: seq<LogItem>): nat {
    if first == [] then 1 else |first|
  }

  /** The last page worth asking for when the first page announces `total` rows. */
  function MaxPage(total: nat, first: seq<LogItem>): nat {
    total / PerPage(first) + 3
  }

  /** The outcome once the pages have been turned. */
  function Ended(p: Paged, total: nat): Fetched {
    match p
    case Broken(f, next) => Fetched(Err(f), next, false)
    case Got(rows, next) => Fetched(Rows(SortRows(rows)), next, |rows| < total)
  }

  /** What `fetchSeg` returns for window [s, e] of `user`, with the number of upstream
      calls it makes and whether it counts the segment as short. */
  function Fetch(env: Env, g: nat, user: string, s: int, e: int, cap: nat): Fetched {
    var t := Attempt(env, g, 0, LogOpt(1, s, e, user), 0);
    match t.resp
    case Failed(f) => Fetched(Err(f), t.next, false)
    case Page(first, total) =>
      if total > cap && e > s then Fetched(Split, t.next, false)
      else Ended(Pages(env, g, t.next, user, s, e, total, Absorb([], first), 2, MaxPage(total, first)), total)
  }

  method AddItems(rows: seq<LogItem>, seen: set<Id>, items: seq<LogItem>)
      returns (rows': seq<LogItem>, seen': set<Id>)
    requires forall id: Id :: id != 0 ==> (id in seen <==> HasId(rows, id))
    ensures rows' == Absorb(rows, items)
    ensures forall id: Id :: id != 0 ==> (id in seen' <==> HasId(rows', id))
  {
    rows', seen' := rows, seen;
    for i := 0 to |items|
      invariant rows' == Absorb(rows, items[..i])
      invariant forall id: Id :: id != 0 ==> (id in seen' <==> HasId(rows', id))
    {
      var it := items[i];
      assert items[..i + 1][..i] == items[..i];
      if it.id != 0 && it.id in seen' {
        continue;
      }
      seen' := seen' + {it.id};
      rows' := rows' + [it];
    }
    assert items[..|items|] == items;
  }

  method TurnPages(env: Env, g: nat, n: nat, user: string, s: int, e: int, total: nat,
                   first: seq<LogItem>, maxPage: nat, prog: Progress) returns (p: Paged)
    modifies prog`calls
    ensures prog.calls + n == old(prog.calls) + p.next
    ensures p == Pages(env, g, n, user, s, e, total, Absorb([], first), 2, maxPage)
  {
    var rows, seen := AddItems([], {}, first);
    var next, page := n, 2;
    while |rows| < total && page <= maxPage
      invariant forall id: Id :: id != 0 ==> (id in seen <==> HasId(rows, id))
      invariant prog.calls + n == old(prog.calls) + next
      invariant Pages(env, g, next, user, s, e, total, rows, page, maxPage)
             == Pages(env, g, n, user, s, e, total, Absorb([], first), 2, maxPage)
      decreases maxPage + 1 - page
    {
      var resp;
      resp, next := Retry(env, g, next, LogOpt(page, s, e, user), prog);
      if resp.Failed? {
        return Broken(resp.fault, next);
      }
      if |resp.items| == 0 {
        break;
      }
      rows, seen := AddItems(rows, seen, resp.items);
      page := page + 1;
    }
    return Got(rows, next);
  }

  /** Turns the pages of a window that is not cut. */
  method FillSeg(env: Env, g: nat, n: nat, user: string, s: int, e: int, total: nat, first: seq<LogItem>,
                 prog: Progress)
      returns (r: SegResult, ghost f: Fetched)
    modifies prog`short, prog`warns, prog`calls
    ensures prog.calls + n == old(prog.calls) + f.calls
    ensures f == Ended(Pages(env, g, n, user, s, e, total, Absorb([], first), 2, MaxPage(total, first)), total)
    ensures r == f.result && prog.short == old(prog.short) + if f.short then 1 else 0
  {
    var per := |first|;
    if per == 0 {
      per := 1;
    }
    var maxPage := total / per + 3;
    var p := TurnPages(env, g, n, user, s, e, total, first, maxPage, prog);
    f := Ended(p, total);
    if p.Broken? {
      return Err(p.fault), f;
    }
    if |p.rows| < total {
      prog.short := prog.short + 1;
    }
    if |p.rows| != total {
      prog.Warn();
    }
    r := Rows(SortRows(p.rows));
  }

  method FetchSeg(env: Env, g: nat, user: string, s: int, e: int, cap: nat, prog: Progress)
      returns (r: SegResult, ghost f: Fetched)
    modifies prog`short, prog`warns, prog`calls
    ensures f == Fetch(env, g, user, s, e, cap)
    ensures r == f.result && prog.short == old(prog.short) + if f.short then 1 else 0
    ensures prog.calls == old(prog.calls) + f.calls
  {
    var resp, n := Retry(env, g, 0, LogOpt(1, s, e, user), prog);
    if resp.Failed? {
      return Err(resp.fault), Fetched(Err(resp.fault), n, false);
    }
    if resp.total > cap && e > s {
      return Split, Fetched(Split, n, false);
    }
    r, f := FillSeg(env, g, n, user, s, e, resp.total, resp.items, prog);
  }
}
