/** Building the summary of a period (backend/internal/usage/service.go: build): the rows of
    every user are added up, and when the result disagrees with the site's own statistics, the
    users' quotas are replaced by theirs. */
module SummaryBuild {
  import opened Basics
  import opened Aggregation
  import opened Summaries

  // ---------------------------------------------------------------- from rows to the summary

  /** One user with the rows fetched for it. */
  datatype Fetched = Fetched(id: int, user: string, group: string, rows: seq<QuotaRow>)

  function Fill(x: Fetched, p: Period): Agg {
    PutAll(NoUsage(x.id, x.group), x.rows, x.user, p)
  }

  function FillAll(xs: seq<Fetched>, p: Period): seq<Agg> {
    if xs == [] then [] else FillAll(xs[..|xs| - 1], p) + [Fill(xs[|xs| - 1], p)]
  }

  /** The counted rows of a slice, over all users. */
  function Shares(xs: seq<Fetched>, p: Period, slice: Slice): Usage {
    if xs == [] then NOTHING
    else Shares(xs[..|xs| - 1], p, slice).Plus(Share(xs[|xs| - 1].rows, xs[|xs| - 1].user, p, slice))
  }

  /** A user's months are the sums of that user's counted rows of each month. */
  lemma FilledMonths(x: Fetched, p: Period, m: Month)
    ensures Fill(x, p).id == x.id && Fill(x, p).group == x.group
    ensures At(Fill(x, p).months, m) == QuotaOnly(Share(x.rows, x.user, p, OnMonth(m)))
  {
    var a := NoUsage(x.id, x.group);
    PutAllAdds(a, x.rows, x.user, p);
    assert AddsMonth(a, Fill(x, p), x.rows, x.user, p, m);
  }

  lemma FillIs(x: Fetched, p: Period, d: Day, name: string)
    ensures Fill(x, p).total == Share(x.rows, x.user, p, Every)
    ensures At(Fill(x, p).days, d) == QuotaOnly(Share(x.rows, x.user, p, OnDay(d)))
    ensures At(Fill(x, p).models, name) == Share(x.rows, x.user, p, OfModel(name))
    ensures p.Calendar() ==> Balanced(Fill(x, p), p)
  {
    var a := NoUsage(x.id, x.group);
    PutAllAdds(a, x.rows, x.user, p);
    if p.Calendar() {
      PutAllBalanced(a, x.rows, x.user, p);
    }
    assert AddsDay(a, Fill(x, p), x.rows, x.user, p, d);
    assert AddsModel(a, Fill(x, p), x.rows, x.user, p, name);
  }

  lemma {:induction false} FilledBalanced(xs: seq<Fetched>, p: Period)
    requires p.Calendar()
    ensures AllBalanced(FillAll(xs, p), p)
  {
    if xs != [] {
      FilledBalanced(xs[..|xs| - 1], p);
      FillIs(xs[|xs| - 1], p, Day(0), "");
    }
  }

  lemma SumsSnoc(users: seq<Agg>, a: Agg, d: Day, name: string)
    ensures Over(users + [a], Total) == Over(users, Total).Plus(a.total)
    ensures DaySum(users + [a], d) == DaySum(users, d).Plus(At(a.days, d))
    ensures ModelSum(users + [a], name) == ModelSum(users, name).Plus(At(a.models, name))
  {
    assert (users + [a])[..|users|] == users;
  }

  /** The three axes, read back as sums over the fetched rows. */
  lemma {:induction false} FilledIs(xs: seq<Fetched>, p: Period, d: Day, name: string)
    ensures Over(FillAll(xs, p), Total) == Shares(xs, p, Every)
    ensures DaySum(FillAll(xs, p), d) == QuotaOnly(Shares(xs, p, OnDay(d)))
    ensures ModelSum(FillAll(xs, p), name) == Shares(xs, p, OfModel(name))
  {
    if xs != [] {
      var init, last := xs[..|xs| - 1], xs[|xs| - 1];
      FilledIs(init, p, d, name);
      FillIs(last, p, d, name);
      SumsSnoc(FillAll(init, p), Fill(last, p), d, name);
      var day := OnDay(d);
      Regroup(NOTHING, Shares(init, p, day), Share(last.rows, last.user, p, day));
    }
  }

  /** Every day and model is the sum of the counted rows behind it. */
  ghost predicate ExplainsParts(s: Summary, xs: seq<Fetched>, p: Period) {
    && |s.daily| == p.last - p.first + 1
    && (forall i :: 0 <= i < |s.daily| ==>
          s.daily[i] == (Day(p.first + i), QuotaOnly(Shares(xs, p, OnDay(Day(p.first + i))))))
    && (forall name: string :: At(s.models, name) == Shares(xs, p, OfModel(name)))
  }

  /** The usage, with another quota if one is given. */
  function WithQuota(u: Usage, quota: Option<int>): Usage {
    if quota.Some? then Usage(quota.value, u.count, u.tokens) else u
  }

  /** The list entry shows this user's rows, in all, month by month and for its largest models;
      `quota` is what the statistics say instead. */
  ghost predicate ExplainsUser(row: UserRow, x: Fetched, p: Period, quota: Option<int>) {
    && row.user.id == x.id && row.user.group == x.group
    && row.user.total == WithQuota(Share(x.rows, x.user, p, Every), quota)
    && |row.months| == p.monthOf(p.last) - p.monthOf(p.first) + 1
    && (forall j :: 0 <= j < |row.months| ==>
          var m := Month(p.monthOf(p.first) + j);
          row.months[j] == (m, QuotaOnly(Share(x.rows, x.user, p, OnMonth(m)))))
    && (forall j :: 0 <= j < |row.top| ==> row.top[j].1 == Share(x.rows, x.user, p, OfModel(row.top[j].0)))
  }

  /** These are the users of `xs`, with these quotas instead of those of their rows. */
  ghost predicate SameUsage(users: seq<Agg>, xs: seq<Fetched>, p: Period, quotas: Statistics) {
    |users| == |xs| && forall k :: 0 <= k < |xs| ==> users[k] == Requoted(Fill(xs[k], p), quotas(k))
  }

  function Requoted(a: Agg, quota: Option<int>): Agg {
    a.(total := WithQuota(a.total, quota))
  }

  function NoStatistics(): Statistics {
    (i: nat) => None
  }

  lemma {:induction false} FilledAt(xs: seq<Fetched>, p: Period, k: nat)
    requires k < |xs|
    ensures |FillAll(xs, p)| == |xs| && FillAll(xs, p)[k] == Fill(xs[k], p)
    decreases |xs|
  {
    var n := |xs| - 1;
    if k < n {
      FilledAt(xs[..n], p, k);
    } else if n > 0 {
      FilledAt(xs[..n], p, 0);
    }
  }

  lemma FilledSame(xs: seq<Fetched>, p: Period)
    ensures SameUsage(FillAll(xs, p), xs, p, NoStatistics())
  {
    if xs != [] {
      FilledAt(xs, p, 0);
    }
    forall k | 0 <= k < |xs| ensures FillAll(xs, p)[k] == Fill(xs[k], p) {
      FilledAt(xs, p, k);
    }
  }

  /** A list entry of a user with these months and models. */
  lemma RowExplained(row: UserRow, x: Fetched, p: Period, quota: Option<int>)
    requires ByMonth(row, p) && TopOf(row.top, row.user.models) && row.user == Requoted(Fill(x, p), quota)
    ensures ExplainsUser(row, x, p, quota)
  {
    FilledMonths(x, p, Month(0));
    FillIs(x, p, Day(0), "");
    forall j | 0 <= j < |row.months|
      ensures var m := Month(p.monthOf(p.first) + j);
        row.months[j] == (m, QuotaOnly(Share(x.rows, x.user, p, OnMonth(m))))
    {
      FilledMonths(x, p, Month(p.monthOf(p.first) + j));
    }
    forall j | 0 <= j < |row.top| ensures row.top[j].1 == Share(x.rows, x.user, p, OfModel(row.top[j].0)) {
      FillIs(x, p, Day(0), row.top[j].0);
    }
  }

  /** Every list entry is that of a user, and every user has one. */
  lemma RowsExplained(s: Summary, users: seq<Agg>, xs: seq<Fetched>, p: Period, quotas: Statistics, i: nat)
    requires Shows(s, users, p) && SameUsage(users, xs, p, quotas) && i < |s.rows|
    ensures exists k :: 0 <= k < |xs| && ExplainsUser(s.rows[i], xs[k], p, quotas(k))
  {
    var row := s.rows[i];
    assert UsersOf(s.rows)[i] == row.user && UsersOf(s.rows)[i] in multiset(users);
    var k :| 0 <= k < |users| && users[k] == row.user;
    assert RowShows(row, s.total, p);
    RowExplained(row, xs[k], p, quotas(k));
  }

  lemma SummaryIsTheRows(s: Summary, xs: seq<Fetched>, p: Period)
    requires s.models == Models(FillAll(xs, p)) && ByDay(s.daily, FillAll(xs, p), p)
    ensures ExplainsParts(s, xs, p)
  {
    forall i | 0 <= i < |s.daily|
      ensures s.daily[i] == (Day(p.first + i), QuotaOnly(Shares(xs, p, OnDay(Day(p.first + i)))))
    {
      FilledIs(xs, p, Day(p.first + i), "");
    }
    forall name: string ensures At(s.models, name) == Shares(xs, p, OfModel(name)) {
      FilledIs(xs, p, Day(p.first), name);
      ModelsAt(FillAll(xs, p), name);
    }
  }

  // ---------------------------------------------------------------- the fallback

  /** The log statistics of user number i: nothing for a user who never used the site, and
      nothing when they cannot be read. */
  type Statistics = nat -> Option<int>

  function CorrectedUser(a: Agg, stat: Option<int>): Agg {
    if stat.Some? then a.(total := a.total.(quota := stat.value)) else a
  }

  /** The users with their quotas replaced by the log statistics. */
  function Corrected(users: seq<Agg>, stats: Statistics): seq<Agg> {
    if users == [] then []
    else
      var n := |users| - 1;
      Corrected(users[..n], stats) + [CorrectedUser(users[n], stats(n))]
  }

  /** A correction replaces the quotas of the users whose statistics are known, and nothing else. */
  lemma {:induction false} CorrectedAt(users: seq<Agg>, stats: Statistics, k: nat)
    requires k < |users|
    ensures |Corrected(users, stats)| == |users|
    ensures var quota := if stats(k).Some? then stats(k).value else users[k].total.quota;
      Corrected(users, stats)[k] == users[k].(total := Usage(quota, users[k].total.count, users[k].total.tokens))
    decreases |users|
  {
    var n := |users| - 1;
    CorrectedInit(users, stats);
    if k < n {
      CorrectedAt(users[..n], stats, k);
      assert Corrected(users, stats)[k] == Corrected(users, stats)[..n][k];
    } else if n > 0 {
      CorrectedAt(users[..n], stats, 0);
    }
  }

  /** A correction changes no model. */
  lemma {:induction false} CorrectedModels(users: seq<Agg>, stats: Statistics)
    ensures Models(Corrected(users, stats)) == Models(users)
  {
    if users != [] {
      CorrectedModels(users[..|users| - 1], stats);
      CorrectedInit(users, stats);
    }
  }

  lemma CorrectedInit(users: seq<Agg>, stats: Statistics)
    requires users != []
    ensures var n, c := |users| - 1, Corrected(users, stats);
      c != [] && c[..|c| - 1] == Corrected(users[..n], stats) && c[|c| - 1] == CorrectedUser(users[n], stats(n))
  {
  }

  /** ... and no day. */
  lemma {:induction false} CorrectedDay(users: seq<Agg>, stats: Statistics, d: Day)
    ensures DaySum(Corrected(users, stats), d) == DaySum(users, d)
  {
    if users != [] {
      CorrectedDay(users[..|users| - 1], stats, d);
      CorrectedInit(users, stats);
    }
  }

  lemma CorrectedByDay(list: seq<(Day, Usage)>, users: seq<Agg>, stats: Statistics, p: Period)
    requires ByDay(list, Corrected(users, stats), p)
    ensures ByDay(list, users, p)
  {
    forall i | 0 <= i < |list| ensures list[i] == (Day(p.first + i), DaySum(users, Day(p.first + i))) {
      CorrectedDay(users, stats, Day(p.first + i));
    }
  }

  /** The summary reports agreement with the site's statistics. */
  predicate Agrees(s: Summary) {
    s.reconciled == Some(true)
  }

  ghost predicate ModelsAddUp(s: Summary) {
    Sum(s.models).quota == s.total.quota
  }

  ghost predicate DaysAddUp(s: Summary) {
    SumPairs(s.daily).quota == s.total.quota
  }

  /** After the fallback, models and days still add up to what the rows sum to. */
  lemma FallbackKeepsBreakdown(s: Summary, users: seq<Agg>, stats: Statistics, p: Period)
    requires AllBalanced(users, p) && Shows(s, Corrected(users, stats), p)
    ensures Sum(s.models).quota == SumPairs(s.daily).quota == Over(users, Total).quota
    ensures ByDay(s.daily, users, p) && s.models == Models(users)
  {
    CorrectedModels(users, stats);
    ModelsConserve(users, p);
    CorrectedByDay(s.daily, users, stats, p);
    DaysConserve(s.daily, users, p);
  }

  /** Whenever the fallback is taken and reaches its goal, a total that agrees with the site's
      statistics, neither the models nor the days add up to that total. */
  lemma ReachedGoalBreaksSums(s: Summary, users: seq<Agg>, stats: Statistics, site: int, p: Period)
    requires AllBalanced(users, p) && Shows(s, Corrected(users, stats), p)
    requires !Reconciled(site, Over(users, Total).quota) && Reconciled(site, s.total.quota)
    ensures !ModelsAddUp(s) && !DaysAddUp(s)
  {
    FallbackKeepsBreakdown(s, users, stats, p);
  }

  /** Every user's log statistics show this quota. */
  function Each(quota: int): Statistics {
    (i: nat) => Some(quota)
  }

  lemma TotalOfOne(users: seq<Agg>)
    requires |users| == 1
    ensures Over(users, Total).quota == users[0].total.quota
  {
    assert users[..0] == [];
  }

  lemma FillOne(xs: seq<Fetched>, p: Period)
    requires |xs| == 1 && xs[0].rows == []
    ensures FillAll(xs, p) == [NoUsage(xs[0].id, xs[0].group)]
    ensures Shares(xs, p, Every).quota == 0
  {
    assert xs[..0] == [];
  }

  lemma CorrectOne(users: seq<Agg>, site: int)
    requires |users| == 1
    ensures Corrected(users, Each(site)) == [CorrectedUser(users[0], Some(site))]
  {
    assert users[..0] == [];
  }

  /** The quota of a user whose rows are gone, before and after the correction. */
  lemma RowsGone(xs: seq<Fetched>, p: Period, site: int)
    requires |xs| == 1 && xs[0].rows == []
    ensures Shares(xs, p, Every).quota == Over(FillAll(xs, p), Total).quota == 0
    ensures Over(Corrected(FillAll(xs, p), Each(site)), Total).quota == site
  {
    FillOne(xs, p);
    var users := FillAll(xs, p);
    TotalOfOne(users);
    CorrectOne(users, site);
    TotalOfOne(Corrected(users, Each(site)));
  }

  lemma Threshold(site: int)
    ensures site > 1000 ==> FallsBack(site, 0)
    ensures site >= 0 ==> Reconciled(site, site)
  {
  }

  /** Such cases exist: the log statistics of the only user show what the site counts, more
      than 1000, but that user's rows are gone.  The fallback is taken and its total agrees ... */
  lemma GoalIsReached(xs: seq<Fetched>, p: Period, site: int)
    requires |xs| == 1 && xs[0].rows == [] && site > 1000
    ensures FallsBack(site, Shares(xs, p, Every).quota)
    ensures Reconciled(site, Over(Corrected(FillAll(xs, p), Each(site)), Total).quota)
  {
    RowsGone(xs, p, site);
    Threshold(site);
  }

  /** ... so that neither the models nor the days of the summary add up to it. */
  lemma GoalBreaksSums(xs: seq<Fetched>, p: Period, site: int, s: Summary)
    requires p.Calendar() && |xs| == 1 && xs[0].rows == [] && site > 1000
    requires Shows(s, Corrected(FillAll(xs, p), Each(site)), p)
    ensures Reconciled(site, s.total.quota) && !ModelsAddUp(s) && !DaysAddUp(s)
  {
    RowsGone(xs, p, site);
    GoalIsReached(xs, p, site);
    FilledBalanced(xs, p);
    ReachedGoalBreaksSums(s, FillAll(xs, p), Each(site), site, p);
  }

  lemma ShownSame(xs: seq<Fetched>, stats: Statistics, p: Period)
    ensures SameUsage(Corrected(FillAll(xs, p), stats), xs, p, stats)
  {
    var users := FillAll(xs, p);
    FilledSame(xs, p);
    assert |Corrected(users, stats)| == |users| by {
      if users != [] {
        CorrectedAt(users, stats, 0);
      }
    }
    forall k | 0 <= k < |xs| ensures Corrected(users, stats)[k] == Requoted(Fill(xs[k], p), stats(k)) {
      CorrectedAt(users, stats, k);
      assert users[k] == Requoted(Fill(xs[k], p), NoStatistics()(k));
    }
  }

  /** The quotas that replace those of the rows. */
  function Quotas(stats: Statistics, corrected: bool): Statistics {
    if corrected then stats else NoStatistics()
  }

  /** Every list entry is that of a user. */
  ghost predicate ExplainsList(s: Summary, xs: seq<Fetched>, p: Period, quotas: Statistics) {
    forall i :: 0 <= i < |s.rows| ==> exists k :: 0 <= k < |xs| && ExplainsUser(s.rows[i], xs[k], p, quotas(k))
  }

  lemma ListExplained(s: Summary, stats: Statistics, xs: seq<Fetched>, p: Period, corrected: bool)
    requires Shows(s, if corrected then Corrected(FillAll(xs, p), stats) else FillAll(xs, p), p)
    ensures |s.rows| == |xs|
    ensures ExplainsList(s, xs, p, Quotas(stats, corrected))
  {
    var users := if corrected then Corrected(FillAll(xs, p), stats) else FillAll(xs, p);
    ShownSame(xs, stats, p);
    FilledSame(xs, p);
    assert |UsersOf(s.rows)| == |multiset(UsersOf(s.rows))| == |multiset(users)| == |users|;
    forall i | 0 <= i < |s.rows|
      ensures exists k :: 0 <= k < |xs| && ExplainsUser(s.rows[i], xs[k], p, Quotas(stats, corrected)(k))
    {
      RowsExplained(s, users, xs, p, Quotas(stats, corrected), i);
    }
  }

  method Correct(users: seq<Agg>, stats: Statistics) returns (corrected: seq<Agg>)
    ensures corrected == Corrected(users, stats)
  {
    corrected := [];
    for i := 0 to |users|
      invariant |corrected| == i && corrected == Corrected(users[..i], stats)
    {
      var a := users[i];
      if stats(i).Some? {
        a := a.(total := a.total.(quota := stats(i).value));
      }
      assert users[..i + 1][..i] == users[..i];
      corrected := corrected + [a];
    }
    assert users[..|users|] == users;
  }

  // ---------------------------------------------------------------- build

  /** Whether the fallback is taken: the site's statistics are known and disagree with the rows. */
  predicate FallsBack(site: int, sum: int) {
    site >= 0 && !Reconciled(site, sum)
  }

  method FillUser(x: Fetched, p: Period) returns (a: Agg)
    ensures a == Fill(x, p)
  {
    var u := new UserAgg(x.id, x.user, x.group);
    u.AddRows(x.rows, p);
    a := u.View();
  }

  /** Adds up the rows of every user. */
  method FillUsers(xs: seq<Fetched>, p: Period) returns (users: seq<Agg>)
    ensures users == FillAll(xs, p)
  {
    users := [];
    for i := 0 to |xs|
      invariant users == FillAll(xs[..i], p)
    {
      var a := FillUser(xs[i], p);
      assert xs[..i + 1][..i] == xs[..i];
      users := users + [a];
    }
    assert xs[..|xs|] == xs;
  }

  method QuotaOf(users: seq<Agg>) returns (sum: int)
    ensures sum == Over(users, Total).quota
  {
    sum := 0;
    for i := 0 to |users|
      invariant sum == Over(users[..i], Total).quota
    {
      OverSnoc(users, Total, i);
      sum := sum + users[i].total.quota;
    }
    assert users[..|users|] == users;
  }

  /** What the summary shows when it is assembled from the users' rows, or from corrected quotas
      exactly when the fallback is taken. */
  ghost predicate Builds(s: Summary, xs: seq<Fetched>, p: Period, site: int, stats: Statistics) {
    && Shows(s, if FallsBack(site, Shares(xs, p, Every).quota) then Corrected(FillAll(xs, p), stats)
                else FillAll(xs, p), p)
    && s.reconciled == if site >= 0 then Some(Reconciled(site, s.total.quota)) else None
  }

  lemma BuildAddsUp(s: Summary, xs: seq<Fetched>, p: Period, site: int, stats: Statistics)
    requires p.Calendar() && Builds(s, xs, p, site, stats)
    ensures var sum := Shares(xs, p, Every).quota;
      && Sum(s.models).quota == SumPairs(s.daily).quota == sum
      && (!FallsBack(site, sum) ==> s.total == Shares(xs, p, Every) && Conserves(s))
      && (site >= 0 ==> (Agrees(s) && ModelsAddUp(s) <==> !FallsBack(site, sum)))
      && (site >= 0 ==> (Agrees(s) && DaysAddUp(s) <==> !FallsBack(site, sum)))
  {
    var filled := FillAll(xs, p);
    FilledBalanced(xs, p);
    FilledIs(xs, p, Day(0), "");
    if FallsBack(site, Shares(xs, p, Every).quota) {
      FallbackKeepsBreakdown(s, filled, stats, p);
    } else {
      BalancedConserves(s, filled, p);
      DaysConserve(s.daily, filled, p);
    }
  }

  lemma BuildExplains(s: Summary, xs: seq<Fetched>, p: Period, site: int, stats: Statistics)
    requires p.first <= p.last && p.Calendar() && Builds(s, xs, p, site, stats)
    ensures ExplainsParts(s, xs, p)
    ensures |s.rows| == |xs|
    ensures ExplainsList(s, xs, p, Quotas(stats, FallsBack(site, Shares(xs, p, Every).quota)))
  {
    var filled := FillAll(xs, p);
    FilledBalanced(xs, p);
    if FallsBack(site, Shares(xs, p, Every).quota) {
      FallbackKeepsBreakdown(s, filled, stats, p);
    }
    SummaryIsTheRows(s, xs, p);
    ListExplained(s, stats, xs, p, FallsBack(site, Shares(xs, p, Every).quota));
  }

  /** Adds up the rows fetched for every user, falls back to the log statistics when the site's
      own ones disagree, and assembles the summary. */
  method Build(xs: seq<Fetched>, p: Period, site: int, stats: Statistics) returns (s: Summary)
    requires p.first <= p.last && p.Calendar()
    // Days and models are those of the rows, whatever happens to the quotas.
    ensures ExplainsParts(s, xs, p)
    ensures Sum(s.models).quota == SumPairs(s.daily).quota == Shares(xs, p, Every).quota
    // Each list entry shows the months and models of a user's own rows, and their total unless the
    // fallback replaced its quota.
    ensures |s.rows| == |xs| && ExplainsList(s, xs, p, Quotas(stats, FallsBack(site, Shares(xs, p, Every).quota)))
    // Without known statistics there is nothing to compare with.
    ensures site < 0 ==> s.reconciled.None? && s.total == Shares(xs, p, Every)
    // Without the fallback everything adds up.
    ensures !FallsBack(site, Shares(xs, p, Every).quota) ==>
      Shows(s, FillAll(xs, p), p) && s.total == Shares(xs, p, Every) && Conserves(s)
    ensures FallsBack(site, Shares(xs, p, Every).quota) ==> Shows(s, Corrected(FillAll(xs, p), stats), p)
    // A summary that shows agreement with the site adds up if and only if it needed no fallback.
    ensures site >= 0 ==>
      (Agrees(s) && ModelsAddUp(s) <==> !FallsBack(site, Shares(xs, p, Every).quota))
    ensures site >= 0 ==>
      (Agrees(s) && DaysAddUp(s) <==> !FallsBack(site, Shares(xs, p, Every).quota))
  {
    var users := FillUsers(xs, p);
    var sum := QuotaOf(users);
    FilledIs(xs, p, Day(0), "");
    if site >= 0 && !Reconciled(site, sum) {
      users := Correct(users, stats);
    }
    s := Assemble(p, users, site);
    BuildAddsUp(s, xs, p, site, stats);
    BuildExplains(s, xs, p, site, stats);
  }
}
