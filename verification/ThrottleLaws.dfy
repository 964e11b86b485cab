/** How far apart granted requests are, how many fit in a minute, and how the rate recovers. */
module ThrottleLaws {
  import opened Basics
  import opened Throttling

  /** The configured rate does not change during the history. */
  ghost predicate FixedRate(evs: seq<Event>, perMin: int) {
    forall ev :: ev in evs && ev.SetRate? ==> (if ev.perMinute <= 0 then 60 else ev.perMinute) == perMin
  }

  lemma StepKeepsRate(t: State, ev: Event)
    requires Sane(t) && (ev.SetRate? ==> (if ev.perMinute <= 0 then 60 else ev.perMinute) == t.perMin)
    ensures Sane(Apply(t, ev)) && Apply(t, ev).perMin == t.perMin && Apply(t, ev).base == t.base
    ensures Apply(t, ev).next >= t.next && Apply(t, ev).pauseUntil >= t.pauseUntil
  {
    StepStaysSane(t, ev);
  }

  /** No request is granted before the instant at which the previous grant and every pause
      known so far allow it, and a grant takes the slot for at least the base interval. */
  lemma GrantTakesSlot(t: State, now: int)
    requires Sane(t) && Start(t) <= now
    ensures now >= t.pauseUntil && now >= t.next
    ensures TryStep(t, now).next >= now + t.base
  {
  }

  /** After a 429 that starts a pause, nothing is granted until the pause is over, whatever
      other goroutines do in between. */
  lemma NoGrantInPause(t: State, before: seq<Event>, hit: int, retryAfter: int, between: seq<Event>, now: int)
    requires Sane(t) && Run(t, before).pauseUntil <= hit
    requires Start(Run(HitStep(Run(t, before), hit, retryAfter), between)) <= now
    ensures now >= hit + PauseFor(Run(t, before).consecutive, retryAfter) >= hit + SECOND
  {
    HistoryStaysSane(t, before);
    var paused := HitStep(Run(t, before), hit, retryAfter);
    StepStaysSane(Run(t, before), Hit(hit, retryAfter));
    HistoryStaysSane(paused, between);
    PauseInRange(Run(t, before).consecutive, retryAfter);
  }

  /** After a grant nothing is granted for the interval in force, slowed down as it may be, whatever
      happens in between. */
  lemma NoGrantInInterval(t: State, granted: int, between: seq<Event>, now: int)
    requires Sane(t) && Start(t) <= granted
    requires Start(Run(TryStep(t, granted), between)) <= now
    ensures now >= granted + t.cur
  {
    StepStaysSane(t, Try(granted));
    HistoryStaysSane(TryStep(t, granted), between);
  }

  /** After a 429 the count of successes starts again: 19 of them change nothing, and the 20th
      shortens the interval by a fifth, not below the base interval. */
  lemma StreakRestarts(t: State, now: int, retryAfter: int, n: nat)
    requires Sane(t) && n <= 20
    ensures var slowed := HitStep(t, now, retryAfter);
      Oks(slowed, n).cur == if n < 20 then slowed.cur else Max(slowed.cur * 8 / 10, t.base)
  {
    var slowed := HitStep(t, now, retryAfter);
    StepStaysSane(t, Hit(now, retryAfter));
    if n < 20 {
      ShortStreak(slowed, n);
    } else {
      TwentyOks(slowed);
    }
  }

  /** After a success the next pause is short again. */
  lemma SuccessResetsPause(t: State, now: int)
    requires now >= t.pauseUntil
    ensures HitStep(OkStep(t), now, 0).pauseUntil == now + 15_000_000_000
  {
    PauseIs(0, 0);
    assert Pow(2, 0) == 1;
  }

  ghost predicate Spaced(gs: seq<int>, from: int, base: int) {
    && (gs != [] ==> gs[0] >= from)
    && (forall i :: 0 <= i < |gs| - 1 ==> gs[i + 1] >= gs[i] + base)
  }

  lemma SpacedCons(g: int, rest: seq<int>, from: int, next: int, base: int)
    requires Spaced(rest, next, base) && g >= from && next >= g + base
    ensures Spaced([g] + rest, from, base)
  {
    var gs := [g] + rest;
    forall i | 0 <= i < |gs| - 1 ensures gs[i + 1] >= gs[i] + base {
      if i > 0 {
        assert gs[i] == rest[i - 1] && gs[i + 1] == rest[i];
      }
    }
  }

  /** At a fixed rate, consecutive grants are at least the base interval apart, whatever the
      pauses, slow-downs and speed-ups in between. */
  lemma {:induction false} GrantsSpaced(t: State, evs: seq<Event>)
    requires Sane(t) && FixedRate(evs, t.perMin)
    ensures Spaced(Grants(t, evs), t.next, t.base)
    decreases |evs|
  {
    if evs != [] {
      var t' := Apply(t, evs[0]);
      assert evs[0] in evs;
      StepKeepsRate(t, evs[0]);
      GrantsSpaced(t', evs[1..]);
      var rest := Grants(t', evs[1..]);
      if evs[0].Try? && Start(t) <= evs[0].now {
        GrantTakesSlot(t, evs[0].now);
        SpacedCons(evs[0].now, rest, t.next, t'.next, t.base);
        assert Grants(t, evs) == [evs[0].now] + rest;
      } else {
        assert Grants(t, evs) == rest;
      }
    }
  }

  /** n consecutive grants span at least (n-1) base intervals. */
  lemma {:induction false} SpacedSpan(gs: seq<int>, from: int, base: nat, i: nat, j: nat)
    requires Spaced(gs, from, base) && i <= j < |gs|
    ensures gs[j] - gs[i] >= (j - i) * base
    decreases j - i
  {
    if i < j {
      SpacedSpan(gs, from, base, i, j - 1);
      assert (j - i) * base == (j - 1 - i) * base + base;
    }
  }

  /** Requests that fit into one minute at a rate: one more than configured, unless the
      rate divides the minute evenly. */
  function PerMinuteBound(perMin: int): int
    requires perMin > 0
  {
    if MINUTE % perMin == 0 then perMin else perMin + 1
  }

  lemma BaseFitsMinute(perMin: int)
    requires 5 <= perMin <= 300
    ensures var base := MINUTE / perMin; base > 0 && PerMinuteBound(perMin) * base >= MINUTE
    ensures MINUTE % perMin != 0 ==> perMin * (MINUTE / perMin) < MINUTE
  {
    var base := MINUTE / perMin;
    assert perMin * base + MINUTE % perMin == MINUTE;
    assert base >= 300 by { Quotient(perMin); }
    assert (perMin + 1) * base == perMin * base + base;
  }

  lemma Quotient(perMin: int)
    requires 5 <= perMin <= 300
    ensures MINUTE / perMin >= 300
  {
    var q := MINUTE / perMin;
    assert perMin * q + MINUTE % perMin == MINUTE;
    assert perMin * (q + 1) > MINUTE;
    assert 300 * (q + 1) >= perMin * (q + 1);
  }

  /** At any rate the settings page allows, grants number i to j that lie within less than
      a minute are at most perMin + 1, and at most perMin when perMin divides the minute. */
  lemma MinuteBound(t: State, evs: seq<Event>, i: nat, j: nat)
    requires Sane(t) && FixedRate(evs, t.perMin) && 5 <= t.perMin <= 300
    requires i <= j < |Grants(t, evs)| && Grants(t, evs)[j] - Grants(t, evs)[i] < MINUTE
    ensures j - i + 1 <= PerMinuteBound(t.perMin)
  {
    GrantsSpaced(t, evs);
    SpacedSpan(Grants(t, evs), t.next, t.base, i, j);
    BaseFitsMinute(t.perMin);
    assert (j - i) * t.base < PerMinuteBound(t.perMin) * t.base;
    MulLess(j - i, PerMinuteBound(t.perMin), t.base);
  }

  // ---------------------------------------------------------------- the bound is reached

  /** Requests that always come as soon as the next slot opens, `n` of them from `from` on. */
  ghost function Eager(from: int, base: int, n: nat): seq<Event>
    decreases n
  {
    if n == 0 then [] else [Try(from)] + Eager(from + base, base, n - 1)
  }

  ghost function Slot(from: int, base: int, i: nat): int
    decreases i
  {
    if i == 0 then from else Slot(from + base, base, i - 1)
  }

  lemma {:induction false} SlotIs(from: int, base: int, i: nat)
    ensures Slot(from, base, i) == from + i * base
    decreases i
  {
    if i > 0 {
      SlotIs(from + base, base, i - 1);
      assert (i - 1) * base + base == i * base;
    }
  }

  lemma {:induction false} EagerGrants(t: State, from: int, base: int, n: nat)
    requires Sane(t) && t.cur == t.base == base && t.next <= from && t.pauseUntil <= from
    ensures FixedRate(Eager(from, base, n), t.perMin)
    ensures |Grants(t, Eager(from, base, n))| == n
    ensures forall i :: 0 <= i < n ==> Grants(t, Eager(from, base, n))[i] == Slot(from, base, i)
    decreases n
  {
    if n > 0 {
      var evs, tail, t' := Eager(from, base, n), Eager(from + base, base, n - 1), TryStep(t, from);
      assert evs[0] == Try(from) && evs[1..] == tail;
      EagerGrants(t', from + base, base, n - 1);
      var rest := Grants(t', tail);
      assert Grants(t, evs) == [from] + rest;
      assert forall i :: 0 < i < n ==> ([from] + rest)[i] == rest[i - 1];
    }
  }

  /** "At most N requests per minute" is kept in every history if and only if N divides the
      minute evenly: otherwise rounding the interval down lets N+1 requests into less than
      a minute, as soon as requests keep coming. */
  lemma PerMinutePromise(t: State, from: int)
    requires Sane(t) && 5 <= t.perMin <= 300
    requires t.cur == t.base && t.next <= from && t.pauseUntil <= from
    ensures MINUTE % t.perMin == 0 <==>
      forall evs: seq<Event>, i: nat, j: nat ::
        (FixedRate(evs, t.perMin) && i <= j < |Grants(t, evs)| && Grants(t, evs)[j] - Grants(t, evs)[i] < MINUTE)
        ==> j - i + 1 <= t.perMin
  {
    if MINUTE % t.perMin == 0 {
      forall evs: seq<Event>, i: nat, j: nat |
        FixedRate(evs, t.perMin) && i <= j < |Grants(t, evs)| && Grants(t, evs)[j] - Grants(t, evs)[i] < MINUTE
        ensures j - i + 1 <= t.perMin
      {
        MinuteBound(t, evs, i, j);
      }
    } else {
      var n := t.perMin + 1;
      EagerGrants(t, from, t.base, n);
      BaseFitsMinute(t.perMin);
      SlotIs(from, t.base, t.perMin);
      var gs := Grants(t, Eager(from, t.base, n));
      assert gs[n - 1] - gs[0] == t.perMin * t.base < MINUTE;
    }
  }

  // ---------------------------------------------------------------- recovery

  ghost function Oks(t: State, n: nat): State
    decreases n
  {
    if n == 0 then t else Oks(OkStep(t), n - 1)
  }

  lemma {:induction false} OksAdd(t: State, m: nat, n: nat)
    ensures Oks(t, m + n) == Oks(Oks(t, m), n)
    decreases m
  {
    if m > 0 {
      OksAdd(OkStep(t), m - 1, n);
    }
  }

  /** Successes below the streak only count. */
  lemma {:induction false} ShortStreak(t: State, n: nat)
    requires t.okStreak + n < OK_STREAK
    ensures Oks(t, n) == t.(okStreak := t.okStreak + n, consecutive := if n == 0 then t.consecutive else 0)
    decreases n
  {
    if n > 0 {
      ShortStreak(OkStep(t), n - 1);
    }
  }

  /** Any 20 successes in a row speed up exactly once. */
  lemma TwentyOks(t: State)
    requires Sane(t)
    ensures Oks(t, OK_STREAK) == t.(cur := Max(t.cur * 8 / 10, t.base), consecutive := 0)
  {
    var k := OK_STREAK - 1 - t.okStreak;
    ShortStreak(t, k);
    OksAdd(t, k, t.okStreak + 1);
    OksAdd(Oks(t, k), 1, t.okStreak);
    var mid := OkStep(Oks(t, k));
    assert Oks(Oks(t, k), 1) == mid by { assert Oks(mid, 0) == mid; }
    ShortStreak(mid, t.okStreak);
  }

  /** 20 m successes without a 429 bring the interval down to the base interval, or at most
      to (8/10)^m of what it was. */
  lemma {:induction false} Recovers(t: State, m: nat)
    requires Sane(t)
    ensures var t' := Oks(t, OK_STREAK * m);
      Sane(t') && t'.base == t.base && (t'.cur == t.base || t'.cur * Pow(10, m) <= t.cur * Pow(8, m))
    decreases m
  {
    if m > 0 {
      TwentyOks(t);
      var mid := Oks(t, OK_STREAK);
      OksAdd(t, OK_STREAK, OK_STREAK * (m - 1));
      Recovers(mid, m - 1);
      var t' := Oks(mid, OK_STREAK * (m - 1));
      if t'.cur != t.base {
        if mid.cur == t.base {
          StaysAtBase(mid, m - 1);
        }
        FactorArith(t'.cur, mid.cur, t.cur, Pow(10, m - 1), Pow(8, m - 1));
      }
    }
  }

  lemma {:induction false} StaysAtBase(t: State, m: nat)
    requires Sane(t) && t.cur == t.base
    ensures Oks(t, OK_STREAK * m).cur == t.base
    decreases m
  {
    if m > 0 {
      TwentyOks(t);
      OksAdd(t, OK_STREAK, OK_STREAK * (m - 1));
      StaysAtBase(Oks(t, OK_STREAK), m - 1);
    }
  }

  lemma FactorArith(z: nat, y: nat, x: nat, tens: nat, eights: nat)
    requires z * tens <= y * eights && 10 * y <= 8 * x
    ensures z * (10 * tens) <= x * (8 * eights)
  {
    assert z * (10 * tens) == 10 * (z * tens);
    assert 10 * (y * eights) == (10 * y) * eights;
    assert (10 * y) * eights <= (8 * x) * eights;
    assert (8 * x) * eights == x * (8 * eights);
  }
}
