/** The global request throttle (backend/internal/detail/throttle.go) in nanoseconds.  Every
    block under the mutex is one atomic step, given as a function on the throttle's state
    and as a method that changes it; histories interleave the steps of all goroutines. */
module Throttling {
  import opened Basics

  const SECOND := 1_000_000_000
  const MINUTE := 60 * SECOND
  const PAUSE_BASE := 15 * SECOND
  const PAUSE_MAX := 180 * SECOND
  const SLOWEST := 20 * SECOND
  const RATE_GIVE_UP := 45 * MINUTE
  const OK_STREAK := 20

  datatype State = State(perMin: int, base: int, cur: int, max: int, next: int, pauseUntil: int,
                         consecutive: nat, okStreak: nat, hits: nat)

  // ---------------------------------------------------------------- the steps

  function RateStep(t: State, perMinute: int): State {
    var pm := if perMinute <= 0 then 60 else perMinute;
    if t.perMin == pm then t
    else t.(perMin := pm, base := MINUTE / pm, cur := MINUTE / pm, max := Max(SLOWEST, MINUTE / pm))
  }

  /** The instant from which a request may start. */
  function Start(t: State): int {
    Max(t.next, t.pauseUntil)
  }

  /** One pass of Wait's loop under the mutex: take the slot if it is free. */
  function TryStep(t: State, now: int): State {
    if Start(t) <= now then t.(next := now + t.cur) else t
  }

  function PauseFor(consecutive: nat, retryAfter: int): int {
    var pause := if retryAfter > 0 then Max(retryAfter, SECOND) else PAUSE_BASE * Pow(2, Min(consecutive, 6));
    if pause > PAUSE_MAX || pause <= 0 then PAUSE_MAX else pause
  }

  function HitStep(t: State, now: int, retryAfter: int): State {
    var t := t.(hits := t.hits + 1, okStreak := 0);
    if now < t.pauseUntil then t
    else t.(pauseUntil := now + PauseFor(t.consecutive, retryAfter), consecutive := t.consecutive + 1,
            cur := Min(2 * t.cur, t.max))
  }

  function OkStep(t: State): State {
    if t.okStreak + 1 >= OK_STREAK then t.(consecutive := 0, okStreak := 0, cur := Max(t.cur * 8 / 10, t.base))
    else t.(consecutive := 0, okStreak := t.okStreak + 1)
  }

  /** The interval stays between the configured rate and the slowest rate. */
  ghost predicate Sane(t: State) {
    && t.perMin > 0 && t.base == MINUTE / t.perMin && t.max == Max(SLOWEST, t.base)
    && 0 <= t.base <= t.cur <= t.max && t.okStreak < OK_STREAK
  }

  // ---------------------------------------------------------------- the object

  class Throttle {
    var perMin: int
    var base: int
    var cur: int
    var max: int
    var next: int
    var pauseUntil: int
    var consecutive: nat
    var okStreak: nat
    var hits: nat

    ghost function View(): State
      reads this
    {
      State(perMin, base, cur, max, next, pauseUntil, consecutive, okStreak, hits)
    }

    constructor (perMinute: int)
      ensures Sane(View()) && perMin == (if perMinute <= 0 then 60 else perMinute)
      ensures cur == base && next == pauseUntil == 0 && hits == 0
    {
      perMin, base, cur, max, next, pauseUntil, consecutive, okStreak, hits := 0, 0, 0, 0, 0, 0, 0, 0, 0;
      new;
      SetRate(perMinute);
      RateStepSane(State(0, 0, 0, 0, 0, 0, 0, 0, 0), perMinute);
    }

    method SetRate(perMinute: int)
      modifies this
      ensures View() == RateStep(old(View()), perMinute)
      // A new rate takes effect at once; the same one changes nothing.
      ensures perMin == if perMinute <= 0 then 60 else perMinute
      ensures old(perMin) != perMin ==>
        cur == base == 60_000_000_000 / perMin && max == Max(20_000_000_000, 60_000_000_000 / perMin)
      ensures old(perMin) == perMin ==> cur == old(cur) && base == old(base) && max == old(max)
      ensures next == old(next) && pauseUntil == old(pauseUntil) && hits == old(hits)
      ensures consecutive == old(consecutive) && okStreak == old(okStreak)
    {
      var pm := perMinute;
      if pm <= 0 {
        pm := 60;
      }
      if perMin == pm {
        return;
      }
      perMin := pm;
      base := MINUTE / pm;
      cur := base;
      max := SLOWEST;
      if max < base {
        max := base;
      }
    }

    /** The locked block of Wait: grants a slot now, or says how long to sleep. */
    method TryGrant(now: int) returns (granted: bool, sleep: int)
      modifies this
      ensures granted == (Start(old(View())) <= now)
      ensures View() == TryStep(old(View()), now)
      ensures !granted ==> sleep == Start(View()) - now > 0
      ensures granted ==> now >= old(next) && now >= old(pauseUntil) && next == now + cur
      ensures cur == old(cur) && pauseUntil == old(pauseUntil) && (!granted ==> next == old(next))
    {
      var start := next;
      if pauseUntil > start {
        start := pauseUntil;
      }
      if start <= now {
        next := now + cur;
        return true, 0;
      }
      return false, start - now;
    }

    method Hit(now: int, retryAfter: int)
      modifies this
      ensures View() == HitStep(old(View()), now, retryAfter)
      // Outside a pause it starts one as long as upstream asks, from 1 to 180 seconds, or else
      // of 15 seconds, doubled with every 429 since the last success, up to 180.
      ensures now >= old(pauseUntil) ==>
        var asked := if retryAfter > 0 then Max(retryAfter, 1_000_000_000)
                     else 15_000_000_000 * Pow(2, old(consecutive));
        && pauseUntil == now + Min(asked, 180_000_000_000)
        && cur == Min(2 * old(cur), max) && consecutive == old(consecutive) + 1
      ensures now < old(pauseUntil) ==>
        pauseUntil == old(pauseUntil) && cur == old(cur) && consecutive == old(consecutive)
      ensures hits == old(hits) + 1 && okStreak == 0 && next == old(next)
    {
      PauseIs(consecutive, retryAfter);
      hits := hits + 1;
      okStreak := 0;
      if now < pauseUntil {
        return;
      }
      var pause := PAUSE_BASE * Pow(2, if consecutive < 6 then consecutive else 6);
      if retryAfter > 0 {
        pause := if retryAfter > SECOND then retryAfter else SECOND;
      }
      if pause > PAUSE_MAX || pause <= 0 {
        pause := PAUSE_MAX;
      }
      consecutive := consecutive + 1;
      pauseUntil := now + pause;
      cur := cur * 2;
      if cur > max {
        cur := max;
      }
    }

    method OK()
      modifies this
      ensures View() == OkStep(old(View()))
      ensures consecutive == 0 && next == old(next) && pauseUntil == old(pauseUntil) && hits == old(hits)
      ensures 0 <= base <= old(cur) ==> base <= cur <= old(cur)
    {
      consecutive := 0;
      okStreak := okStreak + 1;
      if okStreak >= OK_STREAK {
        okStreak := 0;
        cur := cur * 8 / 10;
        if cur < base {
          cur := base;
        }
      }
    }
  }

  // ---------------------------------------------------------------- histories

  datatype Event = SetRate(perMinute: int) | Try(now: int) | Hit(now: int, retryAfter: int) | Ok

  function Apply(t: State, ev: Event): State {
    match ev
    case SetRate(n) => RateStep(t, n)
    case Try(now) => TryStep(t, now)
    case Hit(now, ra) => HitStep(t, now, ra)
    case Ok => OkStep(t)
  }

  function Run(t: State, evs: seq<Event>): State
    decreases |evs|
  {
    if evs == [] then t else Run(Apply(t, evs[0]), evs[1..])
  }

  lemma {:induction false} RunConcat(t: State, a: seq<Event>, b: seq<Event>)
    ensures Run(t, a + b) == Run(Run(t, a), b)
    decreases |a|
  {
    if a == [] {
      assert a + b == b;
    } else {
      assert (a + b)[0] == a[0] && (a + b)[1..] == a[1..] + b;
      RunConcat(Apply(t, a[0]), a[1..], b);
    }
  }

  /** The instants at which a history grants requests. */
  function Grants(t: State, evs: seq<Event>): seq<int>
    decreases |evs|
  {
    if evs == [] then []
    else (if evs[0].Try? && Start(t) <= evs[0].now then [evs[0].now] else []) + Grants(Apply(t, evs[0]), evs[1..])
  }

  lemma RateStepSane(t: State, perMinute: int)
    requires t.okStreak < OK_STREAK && (Sane(t) || t.perMin == 0)
    ensures Sane(RateStep(t, perMinute))
  {
  }

  lemma PowGrows(e: nat)
    requires e >= 6
    ensures Pow(2, e) >= 64
    decreases e
  {
    if e > 6 {
      PowGrows(e - 1);
    } else {
      assert Pow(2, 3) == 8;
    }
  }

  /** The length of a pause: what upstream asks for, or 15 seconds doubled, within the limits. */
  lemma PauseIs(consecutive: nat, retryAfter: int)
    ensures PauseFor(consecutive, retryAfter) ==
      if retryAfter > 0 then Min(Max(retryAfter, 1_000_000_000), 180_000_000_000)
      else Min(15_000_000_000 * Pow(2, consecutive), 180_000_000_000)
  {
    PowPositive(2, Min(consecutive, 6));
    if consecutive >= 6 {
      PowGrows(consecutive);
      PowGrows(6);
    }
  }

  lemma PauseInRange(consecutive: nat, retryAfter: int)
    ensures SECOND <= PauseFor(consecutive, retryAfter) <= PAUSE_MAX
  {
    PowPositive(2, Min(consecutive, 6));
  }

  /** Without an answer from upstream the pauses start at 15 seconds and double with every
      hit up to PAUSE_MAX; an answer within the limits is followed to the nanosecond. */
  lemma PausesBackOff(consecutive: nat, retryAfter: int)
    ensures PauseFor(0, 0) == PAUSE_BASE
    ensures PauseFor(consecutive + 1, 0) == Min(2 * PauseFor(consecutive, 0), PAUSE_MAX)
    ensures SECOND <= retryAfter <= PAUSE_MAX ==> PauseFor(consecutive, retryAfter) == retryAfter
  {
    assert Pow(2, 0) == 1;
    if consecutive < 6 {
      assert Pow(2, consecutive + 1) == 2 * Pow(2, consecutive);
    } else {
      assert Pow(2, 6) == 64 by { assert Pow(2, 3) == 8; }
    }
  }

  lemma {:induction false} PowPositive(b: nat, e: nat)
    requires b > 0
    ensures Pow(b, e) >= 1
  {
    if e > 0 {
      PowPositive(b, e - 1);
    }
  }

  /** Whatever happens, the interval stays in range; a pause is never shortened, and the
      time of the next slot never moves back. */
  lemma {:induction false} HistoryStaysSane(t: State, evs: seq<Event>)
    requires Sane(t)
    ensures Sane(Run(t, evs))
    ensures Run(t, evs).pauseUntil >= t.pauseUntil && Run(t, evs).next >= t.next
    ensures Run(t, evs).hits >= t.hits
    decreases |evs|
  {
    if evs != [] {
      StepStaysSane(t, evs[0]);
      HistoryStaysSane(Apply(t, evs[0]), evs[1..]);
    }
  }

  lemma StepStaysSane(t: State, ev: Event)
    requires Sane(t)
    ensures Sane(Apply(t, ev))
    ensures Apply(t, ev).pauseUntil >= t.pauseUntil && Apply(t, ev).next >= t.next && Apply(t, ev).hits >= t.hits
  {
    if ev.Hit? {
      PauseInRange(t.consecutive, ev.retryAfter);
    }
  }

  /** A 429 outside a pause starts one of at least a second and at most PAUSE_MAX, and at
      most halves the rate; all further ones during that pause only count. */
  lemma {:induction false} BurstSlowsOnce(t: State, now: int, retryAfter: int, burst: seq<Event>)
    requires Sane(t) && t.pauseUntil <= now
    requires forall ev :: ev in burst ==> ev.Hit? && ev.now < HitStep(t, now, retryAfter).pauseUntil
    ensures var t' := Run(HitStep(t, now, retryAfter), burst);
      && now + SECOND <= t'.pauseUntil == now + PauseFor(t.consecutive, retryAfter) <= now + PAUSE_MAX
      && t'.cur == Min(2 * t.cur, t.max)
      && t'.consecutive == t.consecutive + 1
      && t'.hits == t.hits + 1 + |burst|
    decreases |burst|
  {
    PauseInRange(t.consecutive, retryAfter);
    InPauseOnlyCounts(HitStep(t, now, retryAfter), burst);
  }

  lemma {:induction false} InPauseOnlyCounts(t: State, burst: seq<Event>)
    requires forall ev :: ev in burst ==> ev.Hit? && ev.now < t.pauseUntil
    ensures Run(t, burst) == t.(hits := t.hits + |burst|, okStreak := if burst == [] then t.okStreak else 0)
    decreases |burst|
  {
    if burst != [] {
      InPauseOnlyCounts(Apply(t, burst[0]), burst[1..]);
    }
  }
}
