/** Usage totals (backend/internal/usage/summary.go: AddRows, Assemble) over integers. */
module Aggregation {
  import Cst

  /** One row of the upstream's hourly usage data. */
  datatype QuotaRow = QuotaRow(user: string, model: string, quota: int, count: int, tokens: int, createdAt: int)

  /** A period of whole days, in a calendar that assigns a month to every day. */
  datatype Period = Period(first: int, last: int, monthOf: int -> int)
  {
    /** Later days do not lie in earlier months. */
    ghost predicate Calendar() {
      forall d, e :: d <= e ==> monthOf(d) <= monthOf(e)
    }

    function StartTs(): int {
      Cst.DayStart(first)
    }

    function EndTs(): int {
      Cst.DayStart(last + 1) - 1
    }
  }

  /** A calendar day and a month as map keys. */
  datatype Day = Day(number: int)

  datatype Month = Month(number: int)

  datatype Usage = Usage(quota: int, count: int, tokens: int)
  {
    function Plus(u: Usage): Usage {
      Usage(quota + u.quota, count + u.count, tokens + u.tokens)
    }
  }

  const NOTHING := Usage(0, 0, 0)

  // ---------------------------------------------------------------- sums over maps

  function At<K>(m: map<K, Usage>, k: K): Usage {
    if k in m then m[k] else NOTHING
  }

  ghost function Drop<K>(m: map<K, Usage>, k: K): map<K, Usage> {
    map o | o in m && o != k :: m[o]
  }

  ghost function Sum<K>(m: map<K, Usage>): Usage {
    if m == map[] then NOTHING
    else
      assert m.Keys != {};
      var k :| k in m.Keys;
      m[k].Plus(Sum(Drop(m, k)))
  }

  /** The sum does not depend on the order in which the keys are visited. */
  lemma {:induction false} SumDrop<K>(m: map<K, Usage>, k: K)
    requires k in m
    ensures Sum(m) == m[k].Plus(Sum(Drop(m, k)))
    decreases |m|
  {
    var first :| first in m.Keys && Sum(m) == m[first].Plus(Sum(Drop(m, first)));
    if first != k {
      DropSmaller(m, first);
      DropSmaller(m, k);
      SumDrop(Drop(m, first), k);
      SumDrop(Drop(m, k), first);
      assert Drop(m, first)[k] == m[k] && Drop(m, k)[first] == m[first];
      assert Drop(Drop(m, first), k) == Drop(Drop(m, k), first);
      var rest := Sum(Drop(Drop(m, first), k));
      assert Sum(m) == m[first].Plus(m[k].Plus(rest));
      assert Sum(Drop(m, k)) == m[first].Plus(rest);
    }
  }

  lemma DropSmaller<K>(m: map<K, Usage>, k: K)
    requires k in m
    ensures |Drop(m, k)| == |m| - 1
  {
    assert Drop(m, k).Keys == m.Keys - {k};
    assert |Drop(m, k).Keys| == |m.Keys| - 1;
  }

  lemma SumPut<K>(m: map<K, Usage>, k: K, u: Usage)
    ensures Sum(m[k := At(m, k).Plus(u)]) == Sum(m).Plus(u)
  {
    var m' := m[k := At(m, k).Plus(u)];
    SumDrop(m', k);
    assert Drop(m', k) == Drop(m, k);
    if k in m {
      SumDrop(m, k);
    } else {
      assert Drop(m, k) == m;
    }
  }

  // ---------------------------------------------------------------- one user

  function UsageOf(r: QuotaRow): Usage {
    Usage(r.quota, r.count, r.tokens)
  }

  function QuotaOnly(u: Usage): Usage {
    Usage(u.quota, 0, 0)
  }

  function ModelName(r: QuotaRow): string {
    if r.model == "" then "unknown" else r.model
  }

  /** Rows of other users and rows outside the period are ignored. */
  predicate Counts(r: QuotaRow, user: string, p: Period) {
    (r.user == "" || r.user == user) && p.StartTs() <= r.createdAt <= p.EndTs()
  }

  /** Exactly the rows that name no user or this one, on the days of the period. */
  lemma CountsByDay(r: QuotaRow, user: string, p: Period)
    ensures Counts(r, user, p) <==> r.user in {"", user} && p.first <= Cst.DayOf(r.createdAt) <= p.last
  {
    Cst.DayBounds(r.createdAt, Cst.DayOf(r.createdAt));
  }

  /** All rows, or those of a day, of a month, or of a model. */
  datatype Slice = Every | OnDay(day: Day) | OnMonth(month: Month) | OfModel(name: string)

  predicate Keeps(slice: Slice, r: QuotaRow, p: Period) {
    match slice
    case Every => true
    case OnDay(d) => d == Day(Cst.DayOf(r.createdAt))
    case OnMonth(m) => m == Month(p.monthOf(Cst.DayOf(r.createdAt)))
    case OfModel(name) => if r.model == "" then name == "unknown" else name == r.model
  }

  /** What one row adds to a slice. */
  function Part(r: QuotaRow, user: string, p: Period, slice: Slice): Usage {
    if Counts(r, user, p) && Keeps(slice, r, p) then UsageOf(r) else NOTHING
  }

  /** The usage of the counted rows of a slice. */
  function Share(rows: seq<QuotaRow>, user: string, p: Period, slice: Slice): Usage {
    if rows == [] then NOTHING
    else Share(rows[..|rows| - 1], user, p, slice).Plus(Part(rows[|rows| - 1], user, p, slice))
  }

  lemma ShareSnoc(rows: seq<QuotaRow>, r: QuotaRow, user: string, p: Period, slice: Slice)
    ensures Share(rows + [r], user, p, slice) == Share(rows, user, p, slice).Plus(Part(r, user, p, slice))
  {
    assert (rows + [r])[..|rows|] == rows;
  }

  /** What the overview needs of one user. */
  datatype Agg = Agg(id: int, group: string, total: Usage, models: map<string, Usage>, days: map<Day, Usage>,
                     months: map<Month, Usage>)

  /** A user without any usage. */
  function NoUsage(id: int, group: string): Agg {
    Agg(id, group, NOTHING, map[], map[], map[])
  }

  /** A user's models, days and months split the total, and days and months lie in the period. */
  ghost predicate Balanced(a: Agg, p: Period) {
    && Sum(a.models) == a.total
    && Sum(a.days) == QuotaOnly(a.total)
    && Sum(a.months) == QuotaOnly(a.total)
    && (forall d :: d in a.days ==> p.first <= d.number <= p.last)
    && (forall m :: m in a.months ==> p.monthOf(p.first) <= m.number <= p.monthOf(p.last))
  }

  /** `a` with one counted row added. */
  function Put(a: Agg, r: QuotaRow, p: Period): Agg {
    var name, day := ModelName(r), Day(Cst.DayOf(r.createdAt));
    var month := Month(p.monthOf(day.number));
    a.(total := a.total.Plus(UsageOf(r)),
       models := a.models[name := At(a.models, name).Plus(UsageOf(r))],
       days := a.days[day := At(a.days, day).Plus(QuotaOnly(UsageOf(r)))],
       months := a.months[month := At(a.months, month).Plus(QuotaOnly(UsageOf(r)))])
  }

  function PutIf(b: Agg, r: QuotaRow, user: string, p: Period): Agg {
    if Counts(r, user, p) then Put(b, r, p) else b
  }

  lemma PutBalanced(a: Agg, r: QuotaRow, user: string, p: Period)
    requires p.Calendar() && Balanced(a, p) && Counts(r, user, p)
    ensures Balanced(Put(a, r, p), p)
  {
    var name, day := ModelName(r), Day(Cst.DayOf(r.createdAt));
    Cst.DayBounds(r.createdAt, day.number);
    SumPut(a.models, name, UsageOf(r));
    SumPut(a.days, day, QuotaOnly(UsageOf(r)));
    SumPut(a.months, Month(p.monthOf(day.number)), QuotaOnly(UsageOf(r)));
  }

  lemma Regroup(x: Usage, y: Usage, z: Usage)
    ensures x.Plus(y).Plus(z) == x.Plus(y.Plus(z))
    ensures QuotaOnly(y).Plus(QuotaOnly(z)) == QuotaOnly(y.Plus(z))
    ensures x.Plus(NOTHING) == x && QuotaOnly(NOTHING) == NOTHING
  {
  }

  lemma PutDay(b: Agg, r: QuotaRow, user: string, p: Period, d: Day)
    ensures At(PutIf(b, r, user, p).days, d) == At(b.days, d).Plus(QuotaOnly(Part(r, user, p, OnDay(d))))
  {
  }

  lemma PutMonth(b: Agg, r: QuotaRow, user: string, p: Period, m: Month)
    ensures At(PutIf(b, r, user, p).months, m) == At(b.months, m).Plus(QuotaOnly(Part(r, user, p, OnMonth(m))))
  {
  }

  lemma PutModel(b: Agg, r: QuotaRow, user: string, p: Period, name: string)
    ensures At(PutIf(b, r, user, p).models, name) == At(b.models, name).Plus(Part(r, user, p, OfModel(name)))
  {
  }

  /** The day of `b` is that of `a` plus the day's share of the rows. */
  ghost predicate AddsDay(a: Agg, b: Agg, rows: seq<QuotaRow>, user: string, p: Period, d: Day) {
    At(b.days, d) == At(a.days, d).Plus(QuotaOnly(Share(rows, user, p, OnDay(d))))
  }

  ghost predicate AddsMonth(a: Agg, b: Agg, rows: seq<QuotaRow>, user: string, p: Period, m: Month) {
    At(b.months, m) == At(a.months, m).Plus(QuotaOnly(Share(rows, user, p, OnMonth(m))))
  }

  ghost predicate AddsModel(a: Agg, b: Agg, rows: seq<QuotaRow>, user: string, p: Period, name: string) {
    At(b.models, name) == At(a.models, name).Plus(Share(rows, user, p, OfModel(name)))
  }

  /** `b` is `a` with the counted rows added: in total, on each day, in each month and for each model. */
  ghost predicate Adds(a: Agg, b: Agg, rows: seq<QuotaRow>, user: string, p: Period) {
    && b.id == a.id && b.group == a.group
    && b.total == a.total.Plus(Share(rows, user, p, Every))
    && (forall d: Day :: AddsDay(a, b, rows, user, p, d))
    && (forall m: Month :: AddsMonth(a, b, rows, user, p, m))
    && (forall name: string :: AddsModel(a, b, rows, user, p, name))
  }

  lemma DayStep(a: Agg, b: Agg, rows: seq<QuotaRow>, r: QuotaRow, user: string, p: Period, d: Day)
    requires AddsDay(a, b, rows, user, p, d)
    ensures AddsDay(a, PutIf(b, r, user, p), rows + [r], user, p, d)
  {
    ShareSnoc(rows, r, user, p, OnDay(d));
    PutDay(b, r, user, p, d);
    Regroup(At(a.days, d), Share(rows, user, p, OnDay(d)), Part(r, user, p, OnDay(d)));
    Regroup(At(a.days, d), QuotaOnly(Share(rows, user, p, OnDay(d))), QuotaOnly(Part(r, user, p, OnDay(d))));
  }

  lemma MonthStep(a: Agg, b: Agg, rows: seq<QuotaRow>, r: QuotaRow, user: string, p: Period, m: Month)
    requires AddsMonth(a, b, rows, user, p, m)
    ensures AddsMonth(a, PutIf(b, r, user, p), rows + [r], user, p, m)
  {
    ShareSnoc(rows, r, user, p, OnMonth(m));
    PutMonth(b, r, user, p, m);
    Regroup(At(a.months, m), Share(rows, user, p, OnMonth(m)), Part(r, user, p, OnMonth(m)));
    Regroup(At(a.months, m), QuotaOnly(Share(rows, user, p, OnMonth(m))), QuotaOnly(Part(r, user, p, OnMonth(m))));
  }

  lemma ModelStep(a: Agg, b: Agg, rows: seq<QuotaRow>, r: QuotaRow, user: string, p: Period, name: string)
    requires AddsModel(a, b, rows, user, p, name)
    ensures AddsModel(a, PutIf(b, r, user, p), rows + [r], user, p, name)
  {
    ShareSnoc(rows, r, user, p, OfModel(name));
    PutModel(b, r, user, p, name);
    Regroup(At(a.models, name), Share(rows, user, p, OfModel(name)), Part(r, user, p, OfModel(name)));
  }

  lemma AddsSnoc(a: Agg, b: Agg, rows: seq<QuotaRow>, r: QuotaRow, user: string, p: Period)
    requires Adds(a, b, rows, user, p)
    ensures Adds(a, PutIf(b, r, user, p), rows + [r], user, p)
  {
    ShareSnoc(rows, r, user, p, Every);
    forall d: Day ensures AddsDay(a, PutIf(b, r, user, p), rows + [r], user, p, d) {
      DayStep(a, b, rows, r, user, p, d);
    }
    forall m: Month ensures AddsMonth(a, PutIf(b, r, user, p), rows + [r], user, p, m) {
      MonthStep(a, b, rows, r, user, p, m);
    }
    forall name: string ensures AddsModel(a, PutIf(b, r, user, p), rows + [r], user, p, name) {
      ModelStep(a, b, rows, r, user, p, name);
    }
  }

  /** `a` with every row offered to it in turn. */
  function PutAll(a: Agg, rows: seq<QuotaRow>, user: string, p: Period): Agg {
    if rows == [] then a else PutIf(PutAll(a, rows[..|rows| - 1], user, p), rows[|rows| - 1], user, p)
  }

  lemma AddsNothing(a: Agg, user: string, p: Period)
    ensures Adds(a, a, [], user, p)
  {
    assert Share([], user, p, Every) == NOTHING;
    forall d: Day ensures AddsDay(a, a, [], user, p, d) {
      assert Share([], user, p, OnDay(d)) == NOTHING;
    }
    forall m: Month ensures AddsMonth(a, a, [], user, p, m) {
      assert Share([], user, p, OnMonth(m)) == NOTHING;
    }
    forall name: string ensures AddsModel(a, a, [], user, p, name) {
      assert Share([], user, p, OfModel(name)) == NOTHING;
    }
  }

  /** Nothing is lost and nothing counted twice: total, days, months and models grow by exactly the
      counted rows. */
  lemma {:induction false} PutAllAdds(a: Agg, rows: seq<QuotaRow>, user: string, p: Period)
    ensures Adds(a, PutAll(a, rows, user, p), rows, user, p)
  {
    if rows == [] {
      AddsNothing(a, user, p);
    } else {
      var init, last := rows[..|rows| - 1], rows[|rows| - 1];
      PutAllAdds(a, init, user, p);
      AddsSnoc(a, PutAll(a, init, user, p), init, last, user, p);
      assert rows == init + [last];
    }
  }

  /** The days and the models still split the total. */
  lemma {:induction false} PutAllBalanced(a: Agg, rows: seq<QuotaRow>, user: string, p: Period)
    requires p.Calendar() && Balanced(a, p)
    ensures Balanced(PutAll(a, rows, user, p), p)
  {
    if rows != [] {
      var init, last := rows[..|rows| - 1], rows[|rows| - 1];
      PutAllBalanced(a, init, user, p);
      if Counts(last, user, p) {
        PutBalanced(PutAll(a, init, user, p), last, user, p);
      }
    }
  }

  class UserAgg {
    const id: int
    const username: string
    const group: string
    var total: Usage
    var models: map<string, Usage>
    var days: map<Day, Usage>
    var months: map<Month, Usage>

    function View(): Agg
      reads this
    {
      Agg(id, group, total, models, days, months)
    }

    constructor (id: int, username: string, group: string)
      ensures View() == NoUsage(id, group) && this.username == username
    {
      this.id, this.username, this.group := id, username, group;
      total, models, days, months := NOTHING, map[], map[], map[];
    }

    method AddRow(r: QuotaRow, p: Period)
      modifies this
      ensures View() == PutIf(old(View()), r, username, p)
    {
      if r.user != "" && r.user != username {
        return;
      }
      if r.createdAt < p.StartTs() || r.createdAt > p.EndTs() {
        return;
      }
      total := total.Plus(UsageOf(r));
      var name := r.model;
      if name == "" {
        name := "unknown";
      }
      models := models[name := At(models, name).Plus(UsageOf(r))];
      var day := Day(Cst.DayOf(r.createdAt));
      days := days[day := At(days, day).Plus(QuotaOnly(UsageOf(r)))];
      var month := Month(p.monthOf(day.number));
      months := months[month := At(months, month).Plus(QuotaOnly(UsageOf(r)))];
    }

    method AddRows(rows: seq<QuotaRow>, p: Period)
      modifies this
      ensures View() == PutAll(old(View()), rows, username, p)
      ensures Adds(old(View()), View(), rows, username, p)
    {
      PutAllAdds(View(), rows, username, p);
      ghost var a := View();
      for i := 0 to |rows|
        invariant View() == PutAll(a, rows[..i], username, p)
      {
        AddRow(rows[i], p);
        assert rows[..i + 1][..i] == rows[..i];
      }
      assert rows[..|rows|] == rows;
    }
  }
}
