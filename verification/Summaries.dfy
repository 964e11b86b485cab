/** Putting the users together (backend/internal/usage/summary.go: Assemble; period.go: ListDays). */
module Summaries {
  import opened Basics
  import Cst
  import opened Aggregation

  // ---------------------------------------------------------------- adding one map onto another

  /** `m` with the entries of `from` added key by key. */
  ghost function Merged<K>(m: map<K, Usage>, from: map<K, Usage>): map<K, Usage> {
    map k | k in m.Keys + from.Keys :: At(m, k).Plus(At(from, k))
  }

  ghost function Only<K>(m: map<K, Usage>, keys: set<K>): map<K, Usage> {
    map k | k in m && k in keys :: m[k]
  }

  lemma MergedPut<K>(m: map<K, Usage>, from: map<K, Usage>, k: K, u: Usage)
    requires k !in from
    ensures Merged(m, from[k := u]) == Merged(m, from)[k := At(Merged(m, from), k).Plus(u)]
  {
    var before, after := Merged(m, from), Merged(m, from[k := u]);
    assert At(before, k) == At(m, k);
    forall o | o in after ensures o == k || (o in before && after[o] == before[o]) {
      assert o == k || At(from[k := u], o) == At(from, o);
    }
    assert after.Keys == before.Keys + {k};
  }

  /** One more entry adds its usage to both sides. */
  lemma SumMergedStep<K>(m: map<K, Usage>, from: map<K, Usage>, k: K, u: Usage)
    requires k !in from && Sum(Merged(m, from)) == Sum(m).Plus(Sum(from))
    ensures Sum(Merged(m, from[k := u])) == Sum(m).Plus(Sum(from[k := u]))
  {
    MergedPut(m, from, k, u);
    SumPut(Merged(m, from), k, u);
    SumPut(from, k, u);
    assert At(from, k).Plus(u) == u;
  }

  lemma DropPut<K>(m: map<K, Usage>, k: K)
    requires k in m
    ensures Drop(m, k)[k := m[k]] == m
  {
    assert Drop(m, k)[k := m[k]].Keys == m.Keys;
  }

  lemma MergedNothing<K>(m: map<K, Usage>)
    ensures Merged(m, map[]) == m
  {
  }

  lemma {:induction false} SumMerged<K>(m: map<K, Usage>, from: map<K, Usage>)
    ensures Sum(Merged(m, from)) == Sum(m).Plus(Sum(from))
    decreases |from.Keys|
  {
    if from.Keys == {} {
      MergedNothing(m);
      assert from == map[];
    } else {
      var k :| k in from.Keys;
      DropSmaller(from, k);
      SumMerged(m, Drop(from, k));
      SumMergedStep(m, Drop(from, k), k, from[k]);
      DropPut(from, k);
    }
  }

  lemma OnlyStep<K>(from: map<K, Usage>, keys: set<K>, done: set<K>, k: K)
    requires k in from && k !in done
    ensures k !in Only(from, keys * done)
    ensures k in keys ==> Only(from, keys * (done + {k})) == Only(from, keys * done)[k := from[k]]
    ensures k !in keys ==> Only(from, keys * (done + {k})) == Only(from, keys * done)
  {
  }

  lemma OnlyEnds<K>(from: map<K, Usage>, keys: set<K>)
    ensures Only(from, keys * from.Keys) == Only(from, keys)
    ensures Only(from, keys * {}) == map[]
  {
  }

  /** Adds the entries whose key is one of `keys`, in whatever order the map yields them. */
  method Merge<K(==)>(m: map<K, Usage>, from: map<K, Usage>, keys: set<K>) returns (r: map<K, Usage>)
    ensures r == Merged(m, Only(from, keys))
  {
    r := m;
    var todo := from.Keys;
    ghost var done: set<K>, added: map<K, Usage> := {}, map[];
    OnlyEnds(from, keys);
    MergedNothing(m);
    while todo != {}
      invariant todo + done == from.Keys && todo !! done
      invariant added == Only(from, keys * done)
      invariant r == Merged(m, added)
      decreases |todo|
    {
      var k :| k in todo;
      OnlyStep(from, keys, done, k);
      if k in keys {
        MergedPut(m, added, k, from[k]);
        r := r[k := At(r, k).Plus(from[k])];
        added := added[k := from[k]];
      }
      todo, done := todo - {k}, done + {k};
    }
    assert done == from.Keys;
  }

  // ---------------------------------------------------------------- the users' order

  /** Largest quota first, then by id. */
  predicate Ranks(a: Agg, b: Agg) {
    a.total.quota > b.total.quota || (a.total.quota == b.total.quota && a.id <= b.id)
  }

  predicate Ranked(s: seq<Agg>) {
    forall i, j :: 0 <= i < j < |s| ==> Ranks(s[i], s[j])
  }

  function Place(a: Agg, s: seq<Agg>): seq<Agg> {
    if s == [] then [a]
    else if Ranks(a, s[0]) then [a] + s
    else [s[0]] + Place(a, s[1..])
  }

  function Ranking(s: seq<Agg>): seq<Agg> {
    if s == [] then [] else Place(s[0], Ranking(s[1..]))
  }

  lemma {:induction false} PlaceRanked(a: Agg, s: seq<Agg>)
    requires Ranked(s)
    ensures Ranked(Place(a, s)) && multiset(Place(a, s)) == multiset{a} + multiset(s)
  {
    if s == [] {
    } else if Ranks(a, s[0]) {
      assert multiset([a] + s) == multiset{a} + multiset(s);
    } else {
      var rest := s[1..];
      PlaceRanked(a, rest);
      var placed := Place(a, rest);
      assert s == [s[0]] + rest;
      forall i | 0 <= i < |placed| ensures Ranks(s[0], placed[i]) {
        assert placed[i] in multiset(placed);
        assert placed[i] == a || placed[i] in rest;
      }
    }
  }

  /** The list of users is a permutation of the users, ranked. */
  lemma {:induction false} RankingIsRanked(s: seq<Agg>)
    ensures Ranked(Ranking(s)) && multiset(Ranking(s)) == multiset(s)
  {
    if s != [] {
      RankingIsRanked(s[1..]);
      PlaceRanked(s[0], Ranking(s[1..]));
      assert s == [s[0]] + s[1..];
    }
  }

  // ---------------------------------------------------------------- totals over users

  /** Sums one figure over the users. */
  function Over(users: seq<Agg>, figure: Agg -> Usage): Usage {
    if users == [] then NOTHING else Over(users[..|users| - 1], figure).Plus(figure(users[|users| - 1]))
  }

  function Total(a: Agg): Usage {
    a.total
  }

  function GroupName(a: Agg): string {
    if a.group == "" then "default" else a.group
  }

  /** Only users above zero enter a group. */
  function GroupEntry(a: Agg): map<string, Usage> {
    if a.total.quota > 0 then map[GroupName(a) := QuotaOnly(a.total)] else map[]
  }

  ghost function Models(users: seq<Agg>): map<string, Usage> {
    if users == [] then map[] else Merged(Models(users[..|users| - 1]), users[|users| - 1].models)
  }

  ghost function Daily(blank: map<Day, Usage>, users: seq<Agg>): map<Day, Usage> {
    if users == [] then blank
    else Merged(Daily(blank, users[..|users| - 1]), Only(users[|users| - 1].days, blank.Keys))
  }

  ghost function Groups(users: seq<Agg>): map<string, Usage> {
    if users == [] then map[] else Merged(Groups(users[..|users| - 1]), GroupEntry(users[|users| - 1]))
  }

  /** What the users spent on one day. */
  function DaySum(users: seq<Agg>, d: Day): Usage {
    if users == [] then NOTHING else DaySum(users[..|users| - 1], d).Plus(At(users[|users| - 1].days, d))
  }

  /** What the users spent on one model. */
  function ModelSum(users: seq<Agg>, name: string): Usage {
    if users == [] then NOTHING else ModelSum(users[..|users| - 1], name).Plus(At(users[|users| - 1].models, name))
  }

  lemma {:induction false} ModelsAt(users: seq<Agg>, name: string)
    ensures At(Models(users), name) == ModelSum(users, name)
  {
    if users != [] {
      ModelsAt(users[..|users| - 1], name);
      MergedAt(Models(users[..|users| - 1]), users[|users| - 1].models, name);
    }
  }

  /** What the users above zero of one group spent; users without a group are "default". */
  function GroupSum(users: seq<Agg>, name: string): Usage {
    if users == [] then NOTHING else GroupSum(users[..|users| - 1], name).Plus(GroupPart(users[|users| - 1], name))
  }

  function GroupPart(a: Agg, name: string): Usage {
    if a.total.quota > 0 && name == (if a.group == "" then "default" else a.group) then Usage(a.total.quota, 0, 0)
    else NOTHING
  }

  lemma GroupEntryAt(a: Agg, name: string)
    ensures At(GroupEntry(a), name) == GroupPart(a, name)
  {
  }

  /** Each group of the summary is the sum of its users. */
  lemma {:induction false} GroupsAt(users: seq<Agg>, name: string)
    ensures At(Groups(users), name) == GroupSum(users, name)
  {
    if users != [] {
      GroupsAt(users[..|users| - 1], name);
      MergedAt(Groups(users[..|users| - 1]), GroupEntry(users[|users| - 1]), name);
      GroupEntryAt(users[|users| - 1], name);
    }
  }

  lemma MergedAt<K>(m: map<K, Usage>, from: map<K, Usage>, k: K)
    ensures At(Merged(m, from), k) == At(m, k).Plus(At(from, k))
  {
  }

  lemma {:induction false} DailyAt(blank: map<Day, Usage>, users: seq<Agg>, p: Period, d: Day)
    requires Blank(blank, p) && d in blank
    ensures At(Daily(blank, users), d) == DaySum(users, d)
  {
    if users != [] {
      var last := users[|users| - 1];
      DailyAt(blank, users[..|users| - 1], p, d);
      MergedAt(Daily(blank, users[..|users| - 1]), Only(last.days, blank.Keys), d);
      assert At(Only(last.days, blank.Keys), d) == At(last.days, d);
    }
  }

  // ---------------------------------------------------------------- conservation

  ghost predicate AllBalanced(users: seq<Agg>, p: Period) {
    forall a :: a in users ==> Balanced(a, p)
  }

  /** The days of a period, each at zero. */
  ghost predicate Blank(blank: map<Day, Usage>, p: Period) {
    && (forall d: Day :: d in blank <==> p.first <= d.number <= p.last)
    && (forall d :: d in blank ==> blank[d] == NOTHING)
  }

  lemma InitBalanced(users: seq<Agg>, p: Period)
    requires users != [] && AllBalanced(users, p)
    ensures AllBalanced(users[..|users| - 1], p) && Balanced(users[|users| - 1], p)
  {
    assert users[|users| - 1] in users;
  }

  /** The models split the site's total. */
  lemma {:induction false} ModelsConserve(users: seq<Agg>, p: Period)
    requires AllBalanced(users, p)
    ensures Sum(Models(users)) == Over(users, Total)
  {
    if users != [] {
      InitBalanced(users, p);
      ModelsConserve(users[..|users| - 1], p);
      SumMerged(Models(users[..|users| - 1]), users[|users| - 1].models);
    }
  }

  lemma {:induction false} SumBlank<K>(m: map<K, Usage>)
    requires forall k :: k in m ==> m[k] == NOTHING
    ensures Sum(m) == NOTHING
    decreases |m|
  {
    if m.Keys != {} {
      var k :| k in m.Keys;
      SumDrop(m, k);
      DropSmaller(m, k);
      SumBlank(Drop(m, k));
    } else {
      assert m == map[];
    }
  }

  lemma OnlyAll<K>(m: map<K, Usage>, keys: set<K>)
    requires m.Keys <= keys
    ensures Only(m, keys) == m
  {
  }

  lemma MergedKeys<K>(m: map<K, Usage>, from: map<K, Usage>)
    requires from.Keys <= m.Keys
    ensures Merged(m, from).Keys == m.Keys
  {
  }

  /** So do the days of the period: the guard on unknown days never drops anything. */
  lemma {:induction false} DailyConserves(blank: map<Day, Usage>, users: seq<Agg>, p: Period)
    requires Blank(blank, p) && AllBalanced(users, p)
    ensures Sum(Daily(blank, users)) == QuotaOnly(Over(users, Total))
    ensures Daily(blank, users).Keys == blank.Keys
  {
    if users == [] {
      SumBlank(blank);
    } else {
      InitBalanced(users, p);
      var init, last := users[..|users| - 1], users[|users| - 1];
      DailyConserves(blank, init, p);
      OnlyAll(last.days, blank.Keys);
      MergedKeys(Daily(blank, init), last.days);
      SumMerged(Daily(blank, init), last.days);
      Regroup(NOTHING, Over(init, Total), last.total);
    }
  }

  predicate NoneNegative(users: seq<Agg>) {
    forall a :: a in users ==> a.total.quota >= 0
  }

  lemma SumOne(k: string, u: Usage)
    ensures Sum(map[k := u]) == u && Sum<string>(map[]) == NOTHING
  {
    SumDrop(map[k := u], k);
    assert Drop(map[k := u], k) == map[];
  }

  function Grouped(a: Agg): Usage {
    if a.total.quota > 0 then QuotaOnly(a.total) else NOTHING
  }

  lemma {:induction false} SumGroups(users: seq<Agg>)
    ensures Sum(Groups(users)) == Over(users, Grouped)
  {
    if users == [] {
      SumOne("", NOTHING);
    } else {
      var last := users[|users| - 1];
      SumGroups(users[..|users| - 1]);
      SumMerged(Groups(users[..|users| - 1]), GroupEntry(last));
      SumOne(GroupName(last), QuotaOnly(last.total));
    }
  }

  lemma {:induction false} OverGrouped(users: seq<Agg>)
    ensures Over(users, Grouped).quota >= Over(users, Total).quota
    ensures Over(users, Grouped).quota == Over(users, Total).quota <==> NoneNegative(users)
  {
    if users != [] {
      var init, last := users[..|users| - 1], users[|users| - 1];
      assert users == init + [last];
      OverGrouped(init);
    }
  }

  /** The groups split the total exactly when no user is below zero. */
  lemma GroupsConserve(users: seq<Agg>)
    ensures Sum(Groups(users)).quota == Over(users, Total).quota <==> NoneNegative(users)
  {
    SumGroups(users);
    OverGrouped(users);
  }

  // ---------------------------------------------------------------- the summary

  const TOP := 5

  /** One user of the list: its share of the total, its months and its largest models. */
  datatype UserRow = UserRow(user: Agg, share: real, months: seq<(Month, Usage)>, top: seq<(string, Usage)>)

  /** `reconciled` compares the total with the site's own statistics, if they are known. */
  datatype Summary = Summary(
    total: Usage, active: int, reconciled: Option<bool>, daily: seq<(Day, Usage)>,
    models: map<string, Usage>, groups: map<string, Usage>, rows: seq<UserRow>)

  function UsersOf(rows: seq<UserRow>): seq<Agg> {
    seq(|rows|, i requires 0 <= i < |rows| => rows[i].user)
  }

  function SumPairs<K>(s: seq<(K, Usage)>): Usage {
    if s == [] then NOTHING else SumPairs(s[..|s| - 1]).Plus(s[|s| - 1].1)
  }

  predicate Listed(days: seq<Day>, p: Period) {
    && |days| == p.last - p.first + 1
    && forall i :: 0 <= i < |days| ==> days[i] == Day(p.first + i)
  }

  method ListDays(p: Period) returns (days: seq<Day>)
    requires p.first <= p.last
    ensures Listed(days, p)
  {
    days := [];
    var ts := p.StartTs();
    while ts <= p.EndTs()
      invariant ts == Cst.DayStart(p.first + |days|) && |days| <= p.last - p.first + 1
      invariant forall i :: 0 <= i < |days| ==> days[i] == Day(p.first + i)
      decreases p.EndTs() - ts
    {
      Cst.DayBounds(ts, p.first + |days|);
      days := days + [Day(Cst.DayOf(ts))];
      ts := ts + 86400;
    }
  }

  /** The months from that of the first day to that of the last. */
  method ListMonths(p: Period) returns (months: seq<Month>)
    requires p.first <= p.last && p.Calendar()
    ensures |months| == p.monthOf(p.last) - p.monthOf(p.first) + 1
    ensures forall i :: 0 <= i < |months| ==> months[i] == Month(p.monthOf(p.first) + i)
  {
    months := [];
    var m, end := p.monthOf(p.first), p.monthOf(p.last);
    while m <= end
      invariant m == p.monthOf(p.first) + |months| <= end + 1
      invariant forall i :: 0 <= i < |months| ==> months[i] == Month(p.monthOf(p.first) + i)
      decreases end - m
    {
      months := months + [Month(m)];
      m := m + 1;
    }
  }

  lemma ListedExactly(days: seq<Day>, p: Period)
    requires Listed(days, p)
    ensures forall d: Day :: d in days <==> p.first <= d.number <= p.last
  {
    forall d: Day | p.first <= d.number <= p.last ensures d in days {
      assert days[d.number - p.first] == d;
    }
  }

  /** The list reads the map off along keys without repeats that cover it. */
  ghost predicate ReadsOff<K(!new)>(list: seq<(K, Usage)>, m: map<K, Usage>) {
    && (forall i :: 0 <= i < |list| ==> list[i].1 == At(m, list[i].0))
    && (forall i, j :: 0 <= i < j < |list| ==> list[i].0 != list[j].0)
    && (forall k :: k in m ==> exists i :: 0 <= i < |list| && list[i].0 == k)
  }

  lemma ReadsOffInit<K(!new)>(list: seq<(K, Usage)>, m: map<K, Usage>)
    requires list != [] && ReadsOff(list, m)
    ensures ReadsOff(list[..|list| - 1], Drop(m, list[|list| - 1].0))
  {
    var init, last := list[..|list| - 1], list[|list| - 1];
    forall k | k in Drop(m, last.0) ensures exists i :: 0 <= i < |init| && init[i].0 == k {
      var i :| 0 <= i < |list| && list[i].0 == k;
      assert init[i].0 == k;
    }
  }

  lemma SumDropAt<K>(m: map<K, Usage>, k: K)
    ensures Sum(m) == Sum(Drop(m, k)).Plus(At(m, k))
  {
    if k in m {
      SumDrop(m, k);
    } else {
      assert Drop(m, k) == m;
    }
  }

  /** Such a list loses nothing. */
  lemma {:induction false} PairsSum<K(!new)>(m: map<K, Usage>, list: seq<(K, Usage)>)
    requires ReadsOff(list, m)
    ensures SumPairs(list) == Sum(m)
    decreases |list|
  {
    if list == [] {
      assert m.Keys == {};
      assert m == map[];
    } else {
      var last := list[|list| - 1];
      ReadsOffInit(list, m);
      PairsSum(Drop(m, last.0), list[..|list| - 1]);
      SumDropAt(m, last.0);
      assert last.1 == At(m, last.0);
    }
  }

  /** What the loop over the users has gathered. */
  ghost predicate Gathered(total: Usage, daily: map<Day, Usage>, models: map<string, Usage>, groups: map<string, Usage>,
      blank: map<Day, Usage>, users: seq<Agg>) {
    && total == Over(users, Total)
    && daily == Daily(blank, users)
    && models == Models(users)
    && groups == Groups(users)
  }

  method AddGroup(groups: map<string, Usage>, a: Agg) returns (r: map<string, Usage>)
    ensures r == Merged(groups, GroupEntry(a))
  {
    r := groups;
    if a.total.quota > 0 {
      MergedPut(groups, map[], GroupName(a), QuotaOnly(a.total));
      r := groups[GroupName(a) := At(groups, GroupName(a)).Plus(QuotaOnly(a.total))];
    }
    MergedNothing(groups);
  }

  method BlankDays(days: seq<Day>, p: Period) returns (blank: map<Day, Usage>)
    requires Listed(days, p)
    ensures Blank(blank, p)
  {
    blank := map[];
    for i := 0 to |days|
      invariant forall d :: d in blank <==> d in days[..i]
      invariant forall d :: d in blank ==> blank[d] == NOTHING
    {
      assert days[..i + 1] == days[..i] + [days[i]];
      blank := blank[days[i] := NOTHING];
    }
    assert days[..|days|] == days;
    ListedExactly(days, p);
  }

  method Gather(users: seq<Agg>, blank: map<Day, Usage>)
    returns (total: Usage, daily: map<Day, Usage>, models: map<string, Usage>, groups: map<string, Usage>)
    ensures Gathered(total, daily, models, groups, blank, users)
  {
    total, daily, models, groups := NOTHING, blank, map[], map[];
    for i := 0 to |users|
      invariant Gathered(total, daily, models, groups, blank, users[..i])
      invariant daily.Keys == blank.Keys
    {
      var a := users[i];
      total := total.Plus(a.total);
      daily := Merge(daily, a.days, daily.Keys);
      models := Merge(models, a.models, a.models.Keys);
      OnlyAll(a.models, a.models.Keys);
      groups := AddGroup(groups, a);
      assert users[..i + 1][..i] == users[..i];
    }
    assert users[..|users|] == users;
  }

  lemma DailyKeys(blank: map<Day, Usage>, users: seq<Agg>)
    ensures Daily(blank, users).Keys == blank.Keys
  {
  }

  /** What the users spent on each day of the period. */
  ghost predicate ByDay(daily: seq<(Day, Usage)>, users: seq<Agg>, p: Period) {
    && |daily| == p.last - p.first + 1
    && forall i :: 0 <= i < |daily| ==> daily[i] == (Day(p.first + i), DaySum(users, Day(p.first + i)))
  }

  lemma DailyByDay(list: seq<(Day, Usage)>, blank: map<Day, Usage>, users: seq<Agg>, p: Period)
    requires Blank(blank, p) && |list| == p.last - p.first + 1
    requires forall i :: 0 <= i < |list| ==> list[i] == (Day(p.first + i), At(Daily(blank, users), Day(p.first + i)))
    ensures ByDay(list, users, p)
  {
    forall i | 0 <= i < |list| ensures list[i] == (Day(p.first + i), DaySum(users, Day(p.first + i))) {
      DailyAt(blank, users, p, Day(p.first + i));
    }
  }

  method DayTotals(daily: map<Day, Usage>, days: seq<Day>, p: Period) returns (list: seq<(Day, Usage)>)
    requires Listed(days, p) && forall d :: d in days ==> d in daily
    ensures |list| == |days|
    ensures forall i :: 0 <= i < |list| ==> list[i] == (Day(p.first + i), At(daily, Day(p.first + i)))
  {
    list := [];
    for i := 0 to |days|
      invariant |list| == i
      invariant forall j :: 0 <= j < i ==> list[j] == (Day(p.first + j), At(daily, Day(p.first + j)))
    {
      list := list + [(days[i], daily[days[i]])];
    }
  }

  lemma SomeBlank(p: Period) returns (blank: map<Day, Usage>)
    ensures Blank(blank, p)
  {
    blank := map n | p.first <= n <= p.last :: Day(n) := NOTHING;
    forall d: Day ensures d in blank <==> p.first <= d.number <= p.last {
      assert d == Day(d.number);
    }
  }

  /** The day list of balanced users adds up to their quota. */
  lemma DaysConserve(list: seq<(Day, Usage)>, users: seq<Agg>, p: Period)
    requires ByDay(list, users, p) && AllBalanced(users, p)
    ensures SumPairs(list) == QuotaOnly(Over(users, Total))
  {
    var blank := SomeBlank(p);
    DailyConserves(blank, users, p);
    forall i | 0 <= i < |list| ensures list[i].1 == At(Daily(blank, users), list[i].0) {
      DailyAt(blank, users, p, list[i].0);
    }
    forall d | d in blank ensures exists i :: 0 <= i < |list| && list[i].0 == d {
      assert list[d.number - p.first].0 == d;
    }
    PairsSum(Daily(blank, users), list);
  }

  /** The month list shows the user's usage of each month of the period. */
  ghost predicate ByMonth(row: UserRow, p: Period) {
    && |row.months| == p.monthOf(p.last) - p.monthOf(p.first) + 1
    && forall i :: 0 <= i < |row.months| ==>
         var m := Month(p.monthOf(p.first) + i); row.months[i] == (m, At(row.user.months, m))
  }

  /** The month list of a balanced user adds up to the user's quota. */
  lemma MonthsConserve(row: UserRow, p: Period)
    requires ByMonth(row, p) && Balanced(row.user, p)
    ensures SumPairs(row.months) == QuotaOnly(row.user.total)
  {
    forall m | m in row.user.months ensures exists i :: 0 <= i < |row.months| && row.months[i].0 == m {
      assert row.months[m.number - p.monthOf(p.first)].0 == m;
    }
    PairsSum(row.user.months, row.months);
  }

  /** The largest models by quota, at most TOP of them; equals come in any order. */
  ghost predicate TopOf(top: seq<(string, Usage)>, models: map<string, Usage>) {
    && |top| == Min(TOP, |models|)
    && (forall i :: 0 <= i < |top| ==> top[i].0 in models && top[i].1 == models[top[i].0])
    && (forall i, j :: 0 <= i < j < |top| ==> top[i].0 != top[j].0 && top[i].1.quota >= top[j].1.quota)
    && (forall name :: name in models && (forall i :: 0 <= i < |top| ==> top[i].0 != name)
          ==> forall i :: 0 <= i < |top| ==> models[name].quota <= top[i].1.quota)
  }

  method Largest(models: map<string, Usage>, names: set<string>) returns (name: string)
    requires names != {} && names <= models.Keys
    ensures name in names && forall n :: n in names ==> models[n].quota <= models[name].quota
  {
    name := Pick(names);
    var rest := names - {name};
    while rest != {}
      invariant rest <= names && name in names
      invariant forall n :: n in names && n !in rest ==> models[n].quota <= models[name].quota
      decreases rest
    {
      var n := Pick(rest);
      rest := rest - {n};
      if models[n].quota > models[name].quota {
        name := n;
      }
    }
  }

  /** The names listed so far and the ones left; none left is larger than any listed. */
  ghost predicate TopSoFar(top: seq<(string, Usage)>, rest: set<string>, models: map<string, Usage>) {
    && rest <= models.Keys && |top| + |rest| == |models|
    && (forall i :: 0 <= i < |top| ==> top[i].0 in models && top[i].0 !in rest && top[i].1 == models[top[i].0])
    && (forall i, j :: 0 <= i < j < |top| ==> top[i].0 != top[j].0 && top[i].1.quota >= top[j].1.quota)
    && (forall n, i :: n in rest && 0 <= i < |top| ==> models[n].quota <= top[i].1.quota)
    && TopCovers(top, rest, models)
  }

  /** Every name is still left or listed. */
  ghost predicate TopCovers(top: seq<(string, Usage)>, rest: set<string>, models: map<string, Usage>) {
    forall n :: n in models ==> n in rest || exists i :: 0 <= i < |top| && top[i].0 == n
  }

  lemma TopCoversNext(top: seq<(string, Usage)>, rest: set<string>, models: map<string, Usage>, name: string)
    requires TopCovers(top, rest, models) && name in models
    ensures TopCovers(top + [(name, models[name])], rest - {name}, models)
  {
    var next := top + [(name, models[name])];
    forall n | n in models ensures n in rest - {name} || exists i :: 0 <= i < |next| && next[i].0 == n {
      if n == name {
        assert next[|top|].0 == n;
      } else if n !in rest {
        var i :| 0 <= i < |top| && top[i].0 == n;
        assert next[i].0 == n;
      }
    }
  }

  lemma TopNext(top: seq<(string, Usage)>, rest: set<string>, models: map<string, Usage>, name: string)
    requires TopSoFar(top, rest, models) && name in rest
    requires forall n :: n in rest ==> models[n].quota <= models[name].quota
    ensures TopSoFar(top + [(name, models[name])], rest - {name}, models)
  {
    TopCoversNext(top, rest, models, name);
  }

  lemma TopDone(top: seq<(string, Usage)>, rest: set<string>, models: map<string, Usage>)
    requires TopSoFar(top, rest, models) && |top| <= TOP && (rest == {} || |top| == TOP)
    ensures TopOf(top, models)
  {
    assert rest == {} || |rest| > 0;
  }

  method TopModels(models: map<string, Usage>) returns (top: seq<(string, Usage)>)
    ensures TopOf(top, models)
  {
    top := [];
    var rest := models.Keys;
    while rest != {} && |top| < TOP
      invariant TopSoFar(top, rest, models) && |top| <= TOP
      decreases rest
    {
      var name := Largest(models, rest);
      TopNext(top, rest, models, name);
      top, rest := top + [(name, models[name])], rest - {name};
    }
    TopDone(top, rest, models);
  }

  function ShareOf(a: Agg, total: Usage): real {
    if total.quota > 0 then a.total.quota as real / total.quota as real else 0.0
  }

  /** A row of the list shows its user's months, largest models and share of the total. */
  ghost predicate RowShows(row: UserRow, total: Usage, p: Period) {
    ByMonth(row, p) && TopOf(row.top, row.user.models) && row.share == ShareOf(row.user, total)
  }

  method MonthList(a: Agg, months: seq<Month>) returns (list: seq<(Month, Usage)>)
    ensures |list| == |months| && forall i :: 0 <= i < |list| ==> list[i] == (months[i], At(a.months, months[i]))
  {
    list := [];
    for j := 0 to |months|
      invariant |list| == j
      invariant forall i :: 0 <= i < j ==> list[i] == (months[i], At(a.months, months[i]))
    {
      list := list + [(months[j], At(a.months, months[j]))];
    }
  }

  /** Counts a user with usage. */
  function Active(a: Agg): Usage {
    if a.total.quota > 0 || a.total.count > 0 then Usage(0, 1, 0) else NOTHING
  }

  predicate IsActive(users: seq<Agg>, i: nat)
    requires i < |users|
  {
    users[i].total.quota > 0 || users[i].total.count > 0
  }

  /** The users with quota or calls, by their place in the list. */
  function ActiveIn(users: seq<Agg>): set<nat> {
    set i: nat | i < |users| && IsActive(users, i)
  }

  lemma ActiveStep(users: seq<Agg>)
    requires users != []
    ensures var n := |users| - 1;
      |ActiveIn(users)| == |ActiveIn(users[..n])| + if IsActive(users, n) then 1 else 0
  {
    var n := |users| - 1;
    forall i: nat ensures i in ActiveIn(users[..n]) <==> i in ActiveIn(users) - {n} {
    }
    assert ActiveIn(users[..n]) == ActiveIn(users) - {n};
  }

  /** The number of active users is the number of those. */
  lemma {:induction false} ActiveCounts(users: seq<Agg>)
    ensures Over(users, Active).count == |ActiveIn(users)|
  {
    if users == [] {
      assert ActiveIn(users) == {};
    } else {
      ActiveCounts(users[..|users| - 1]);
      ActiveStep(users);
    }
  }

  /** A user's share is the part of the total that the user's quota is; of nothing it is zero. */
  lemma ShareIsPart(a: Agg, total: Usage)
    ensures total.quota > 0 ==> ShareOf(a, total) * total.quota as real == a.total.quota as real
    ensures total.quota <= 0 ==> ShareOf(a, total) == 0.0
  {
  }

  method MakeRow(a: Agg, total: Usage, months: seq<Month>, p: Period) returns (row: UserRow)
    requires |months| == p.monthOf(p.last) - p.monthOf(p.first) + 1
    requires forall i :: 0 <= i < |months| ==> months[i] == Month(p.monthOf(p.first) + i)
    ensures row.user == a && RowShows(row, total, p)
  {
    var list := MonthList(a, months);
    var top := TopModels(a.models);
    row := UserRow(a, ShareOf(a, total), list, top);
  }

  method UserRows(users: seq<Agg>, total: Usage, months: seq<Month>, p: Period) returns (rows: seq<UserRow>)
    requires |months| == p.monthOf(p.last) - p.monthOf(p.first) + 1
    requires forall i :: 0 <= i < |months| ==> months[i] == Month(p.monthOf(p.first) + i)
    ensures UsersOf(rows) == users && forall i :: 0 <= i < |rows| ==> RowShows(rows[i], total, p)
  {
    rows := [];
    for k := 0 to |users|
      invariant |rows| == k && forall i :: 0 <= i < k ==> rows[i].user == users[i] && RowShows(rows[i], total, p)
    {
      var row := MakeRow(users[k], total, months, p);
      rows := rows + [row];
    }
  }

  lemma OverSnoc(users: seq<Agg>, figure: Agg -> Usage, k: nat)
    requires k < |users|
    ensures Over(users[..k + 1], figure) == Over(users[..k], figure).Plus(figure(users[k]))
  {
    assert users[..k + 1][..k] == users[..k];
  }

  method CountActive(users: seq<Agg>) returns (active: int)
    ensures active == Over(users, Active).count
  {
    active := 0;
    ghost var sum := NOTHING;
    for k := 0 to |users|
      invariant sum == Over(users[..k], Active) && active == sum.count
    {
      OverSnoc(users, Active, k);
      sum := sum.Plus(Active(users[k]));
      if users[k].total.quota > 0 || users[k].total.count > 0 {
        active := active + 1;
      }
    }
    assert users[..|users|] == users;
  }

  // ---------------------------------------------------------------- the order of the users does not matter

  lemma {:induction false} OverRemove(users: seq<Agg>, figure: Agg -> Usage, i: nat)
    requires i < |users|
    ensures Over(users, figure) == Over(users[..i] + users[i + 1..], figure).Plus(figure(users[i]))
    decreases |users|
  {
    var n := |users| - 1;
    if i == n {
      assert users[..i] + users[i + 1..] == users[..n];
    } else {
      var rest := users[..i] + users[i + 1..];
      OverRemove(users[..n], figure, i);
      assert users[..n][..i] + users[..n][i + 1..] == rest[..n - 1];
      assert rest[n - 1] == users[n];
      assert users[..n][i] == users[i];
    }
  }

  /** Sums over the users are the same in every order. */
  lemma {:induction false} OverPermute(a: seq<Agg>, b: seq<Agg>, figure: Agg -> Usage)
    requires multiset(a) == multiset(b)
    ensures Over(a, figure) == Over(b, figure)
    decreases |a|
  {
    assert |a| == |multiset(a)| == |multiset(b)| == |b|;
    if a != [] {
      var n := |a| - 1;
      assert a == a[..n] + [a[n]];
      assert a[n] in multiset(b);
      var i :| 0 <= i < |b| && b[i] == a[n];
      assert b == b[..i] + [b[i]] + b[i + 1..];
      assert multiset(b[..i] + b[i + 1..]) == multiset(b) - multiset{a[n]};
      OverPermute(a[..n], b[..i] + b[i + 1..], figure);
      OverRemove(b, figure, i);
    }
  }

  function SumShares(rows: seq<UserRow>): real {
    if rows == [] then 0.0 else SumShares(rows[..|rows| - 1]) + rows[|rows| - 1].share
  }

  lemma {:induction false} SharesOfTotal(rows: seq<UserRow>, total: Usage)
    requires total.quota > 0 && forall i :: 0 <= i < |rows| ==> rows[i].share == ShareOf(rows[i].user, total)
    ensures SumShares(rows) == Over(UsersOf(rows), Total).quota as real / total.quota as real
  {
    if rows != [] {
      var n := |rows| - 1;
      SharesOfTotal(rows[..n], total);
      assert UsersOf(rows)[..n] == UsersOf(rows[..n]);
    }
  }

  lemma RatioOne(x: real)
    requires x > 0.0
    ensures x / x == 1.0
  {
  }

  /** The shares of the users add up to one, unless nothing was spent in all. */
  lemma SharesAddUp(s: Summary, users: seq<Agg>, p: Period)
    requires Shows(s, users, p) && s.total.quota > 0
    ensures SumShares(s.rows) == 1.0
  {
    SharesOfTotal(s.rows, s.total);
    OverPermute(UsersOf(s.rows), users, Total);
    RatioOne(s.total.quota as real);
  }

  // ---------------------------------------------------------------- the summary as a whole

  /** The site's statistics and the sum of the rows agree within 1000 or a thousandth. */
  predicate Reconciled(site: int, sum: int) {
    1000 * Distance(site, sum) <= Max(1_000_000, site)
  }

  lemma ReconciledWithin(site: int, sum: int)
    ensures Reconciled(site, sum) <==> site - 1000 <= sum <= site + 1000 || 1000 * Distance(site, sum) <= site
  {
  }

  /** What the summary shows of any users: the total, each day, model and group, and the
      users, a ranked permutation, month by month. */
  ghost predicate Shows(s: Summary, users: seq<Agg>, p: Period) {
    && s.total == Over(users, Total) && s.active == Over(users, Active).count
    && ByDay(s.daily, users, p)
    && s.models == Models(users) && s.groups == Groups(users)
    && Ranked(UsersOf(s.rows)) && multiset(UsersOf(s.rows)) == multiset(users)
    && forall i :: 0 <= i < |s.rows| ==> RowShows(s.rows[i], s.total, p)
  }

  /** Puts the users together; a negative `site` means that the statistics are not known. */
  method Assemble(p: Period, users: seq<Agg>, site: int) returns (s: Summary)
    requires p.first <= p.last && p.Calendar()
    ensures Shows(s, users, p)
    ensures s.reconciled == if site >= 0 then Some(Reconciled(site, s.total.quota)) else None
  {
    var days := ListDays(p);
    var months := ListMonths(p);
    var blank := BlankDays(days, p);
    var total, daily, models, groups := Gather(users, blank);
    DailyKeys(blank, users);
    ListedExactly(days, p);
    var list := DayTotals(daily, days, p);
    DailyByDay(list, blank, users, p);
    RankingIsRanked(users);
    OverPermute(Ranking(users), users, Active);
    var rows := UserRows(Ranking(users), total, months, p);
    var active := CountActive(Ranking(users));
    var reconciled := if site >= 0 then Some(Reconciled(site, total.quota)) else None;
    s := Summary(total, active, reconciled, list, models, groups, rows);
  }

  /** What the summary lists adds up to the total on every axis, and each user's months add
      up to the user's quota. */
  ghost predicate Conserves(s: Summary) {
    && SumPairs(s.daily) == QuotaOnly(s.total)
    && Sum(s.models) == s.total
    && forall i :: 0 <= i < |s.rows| ==> SumPairs(s.rows[i].months) == QuotaOnly(s.rows[i].user.total)
  }

  lemma BalancedConserves(s: Summary, users: seq<Agg>, p: Period)
    requires Shows(s, users, p) && AllBalanced(users, p)
    ensures Conserves(s)
  {
    DaysConserve(s.daily, users, p);
    ModelsConserve(users, p);
    forall i | 0 <= i < |s.rows| ensures SumPairs(s.rows[i].months) == QuotaOnly(s.rows[i].user.total) {
      assert UsersOf(s.rows)[i] in multiset(users);
      MonthsConserve(s.rows[i], p);
    }
  }
}
