/** A fetch wrapped by the throttle (backend/internal/detail/throttle.go: Wait, Wrap), run by
    one goroutine while others use the same throttle.

    The world is a sequence of moments: before its next step the goroutine lets others act
    on the throttle and then reads the clock and the context.  `budget` cuts an execution
    off after that many moments, so every statement holds of every finite prefix. */
module Wrapped {
  import opened Basics
  import opened Throttling
  import opened ThrottleLaws

  datatype Moment = Moment(others: seq<Event>, now: int, cancelled: bool)

  /** The answer to one upstream call. */
  datatype Answer = Page | RateLimited(retryAfter: int) | OtherError

  datatype World = World(moments: nat -> Moment, answers: nat -> Answer)

  datatype Outcome = Success | GaveUp | Failed | Cancelled | StillRunning

  /** Time does not run backwards and the others leave the rate alone. */
  ghost predicate Fair(w: World, perMin: int) {
    && (forall i: nat, j: nat :: i <= j ==> w.moments(i).now <= w.moments(j).now)
    && (forall i: nat :: FixedRate(w.moments(i).others, perMin))
  }

  // ---------------------------------------------------------------- what the goroutine reports

  /** A step on the throttle, taken by this goroutine or by another one. */
  datatype Step = Mine(ev: Event) | Theirs(ev: Event)

  /** The throttle after these steps. */
  function RunSteps(t: State, steps: seq<Step>): State {
    if steps == [] then t else Apply(RunSteps(t, steps[..|steps| - 1]), steps[|steps| - 1].ev)
  }

  function AllTheirs(evs: seq<Event>): seq<Step> {
    if evs == [] then [] else AllTheirs(evs[..|evs| - 1]) + [Theirs(evs[|evs| - 1])]
  }

  /** The 429s and successes that this goroutine reports, in order. */
  function Reports(steps: seq<Step>): seq<Event> {
    if steps == [] then []
    else
      var last := steps[|steps| - 1];
      Reports(steps[..|steps| - 1]) + if last.Mine? && !last.ev.Try? then [last.ev] else []
  }

  /** What has to be reported of the first `n` calls: each 429 with its answer, and a success. */
  function ToReport(w: World, grants: seq<nat>, n: nat): seq<Event>
    requires n <= |grants|
  {
    if n == 0 then [] else ToReport(w, grants, n - 1) + ReportOf(w, n - 1, grants[n - 1])
  }

  /** What has to be reported of call `c`, granted at moment `grant`. */
  function ReportOf(w: World, c: nat, grant: nat): seq<Event> {
    match w.answers(c)
    case Page => [Ok]
    case RateLimited(retryAfter) => [Hit(w.moments(grant + 1).now, retryAfter)]
    case OtherError => []
  }

  /** These steps led from `t0` to `t`, and what was reported is what had to be. */
  ghost predicate Accounted(t0: State, steps: seq<Step>, t: State, w: World, grants: seq<nat>) {
    t == RunSteps(t0, steps) && Reports(steps) == ToReport(w, grants, |grants|)
  }

  lemma StepSnoc(t0: State, steps: seq<Step>, step: Step)
    ensures RunSteps(t0, steps + [step]) == Apply(RunSteps(t0, steps), step.ev)
    ensures Reports(steps + [step]) == Reports(steps) + if step.Mine? && !step.ev.Try? then [step.ev] else []
  {
    assert (steps + [step])[..|steps|] == steps;
  }

  /** The others act. */
  lemma {:induction false} TheirsRun(t0: State, steps: seq<Step>, evs: seq<Event>)
    ensures RunSteps(t0, steps + AllTheirs(evs)) == Run(RunSteps(t0, steps), evs)
    ensures Reports(steps + AllTheirs(evs)) == Reports(steps)
  {
    var t := RunSteps(t0, steps);
    if evs == [] {
      assert steps + [] == steps;
    } else {
      var init, last := evs[..|evs| - 1], evs[|evs| - 1];
      TheirsRun(t0, steps, init);
      assert steps + AllTheirs(evs) == steps + AllTheirs(init) + [Theirs(last)];
      StepSnoc(t0, steps + AllTheirs(init), Theirs(last));
      RunConcat(t, init, [last]);
      assert init + [last] == evs && [last][1..] == [];
    }
  }

  lemma OthersAccounted(t0: State, steps: seq<Step>, t: State, w: World, grants: seq<nat>, evs: seq<Event>)
    requires Accounted(t0, steps, t, w, grants)
    ensures Accounted(t0, steps + AllTheirs(evs), Run(t, evs), w, grants)
  {
    TheirsRun(t0, steps, evs);
  }

  /** The goroutine acts. */
  lemma MineRuns(t0: State, steps: seq<Step>, t: State, ev: Event)
    requires t == RunSteps(t0, steps)
    ensures Apply(t, ev) == RunSteps(t0, steps + [Mine(ev)])
    ensures Reports(steps + [Mine(ev)]) == Reports(steps) + if ev.Try? then [] else [ev]
  {
    StepSnoc(t0, steps, Mine(ev));
  }

  lemma {:induction false} ToReportPrefix(w: World, grants: seq<nat>, grant: nat, n: nat)
    requires n <= |grants|
    ensures ToReport(w, grants + [grant], n) == ToReport(w, grants, n)
  {
    if n > 0 {
      ToReportPrefix(w, grants, grant, n - 1);
    }
  }

  /** One more call is accounted for when its answer has been reported. */
  lemma CallAccounted(t0: State, steps: seq<Step>, t: State, steps': seq<Step>, t': State, w: World, grants: seq<nat>,
                      grant: nat)
    requires Accounted(t0, steps, t, w, grants) && t' == RunSteps(t0, steps')
    requires Reports(steps') == Reports(steps) + ReportOf(w, |grants|, grant)
    ensures Accounted(t0, steps', t', w, grants + [grant])
  {
    ToReportPrefix(w, grants, grant, |grants|);
  }

  // ---------------------------------------------------------------- waiting

  method Act(t: Throttle, evs: seq<Event>)
    modifies t
    ensures t.View() == Run(old(t.View()), evs)
  {
    var i := 0;
    while i < |evs|
      invariant 0 <= i <= |evs|
      invariant Run(t.View(), evs[i..]) == Run(old(t.View()), evs)
    {
      assert evs[i..][0] == evs[i] && evs[i..][1..] == evs[i + 1..];
      match evs[i] {
        case SetRate(n) => t.SetRate(n);
        case Try(now) => var granted, sleep := t.TryGrant(now);
        case Hit(now, ra) => t.Hit(now, ra);
        case Ok => t.OK();
      }
      i := i + 1;
    }
    assert evs[i..] == [];
  }

  lemma {:induction false} OthersKeep(t: State, evs: seq<Event>)
    requires Sane(t) && FixedRate(evs, t.perMin)
    ensures Sane(Run(t, evs)) && Run(t, evs).perMin == t.perMin && Run(t, evs).base == t.base
    ensures Run(t, evs).next >= t.next
    decreases |evs|
  {
    if evs != [] {
      assert evs[0] in evs;
      StepKeepsRate(t, evs[0]);
      OthersKeep(Apply(t, evs[0]), evs[1..]);
    }
  }

  /** The throttle is sane, at a fixed rate, and its next slot has not moved back. */
  ghost predicate Kept(t: State, perMin: int, base: int, next: int) {
    Sane(t) && t.perMin == perMin && t.base == base && t.next >= next
  }

  /** The context was done at the last of the moments from `k` on. */
  ghost predicate CancelledAt(w: World, k: nat, k': nat) {
    k' > k && w.moments(k' - 1).cancelled
  }

  /** Waits for a slot; the slot is taken even when the context turns out to be done. */
  method Wait(t: Throttle, w: World, k: nat, budget: nat, ghost perMin: int, ghost base: int, ghost next: int,
              ghost t0: State, ghost steps: seq<Step>, ghost grants: seq<nat>)
      returns (granted: bool, cancelled: bool, k': nat, ghost at: int, ghost steps': seq<Step>)
    requires Kept(t.View(), perMin, base, next) && Fair(w, perMin) && Accounted(t0, steps, t.View(), w, grants)
    modifies t
    ensures k <= k' && (k' > k || k >= budget)
    ensures Kept(t.View(), perMin, base, next)
    ensures granted ==> k' > k && at == w.moments(k' - 1).now >= next && t.next >= at + base
    ensures cancelled ==> CancelledAt(w, k, k')
    ensures granted ==> cancelled == w.moments(k' - 1).cancelled
    ensures granted || cancelled || k' >= budget
    // It reports nothing, and waits only while the context is alive.
    ensures Accounted(t0, steps', t.View(), w, grants)
    ensures forall i :: k <= i < k' - 1 ==> !w.moments(i).cancelled
    ensures !cancelled && k' > k ==> !w.moments(k' - 1).cancelled
  {
    k', granted, cancelled, at, steps' := k, false, false, 0, steps;
    while k' < budget
      invariant k <= k' && Kept(t.View(), perMin, base, next) && !granted && !cancelled
      invariant Accounted(t0, steps', t.View(), w, grants)
      invariant forall i :: k <= i < k' ==> !w.moments(i).cancelled
    {
      var m := w.moments(k');
      k' := k' + 1;
      OthersKeep(t.View(), m.others);
      OthersAccounted(t0, steps', t.View(), w, grants, m.others);
      Act(t, m.others);
      steps' := steps' + AllTheirs(m.others);
      MineRuns(t0, steps', t.View(), Try(m.now));
      var sleep;
      granted, sleep := t.TryGrant(m.now);
      steps' := steps' + [Mine(Try(m.now))];
      if granted {
        at, cancelled := m.now, m.cancelled;
        return;
      }
      if m.cancelled {
        cancelled := true;
        return;
      }
    }
  }

  /** Where a call stands after its first 429: how long ago that was, and how many calls
      have been granted since. */
  ghost predicate Progressing(first: int, lastGrant: int, calls: nat, base: int, now: int) {
    && calls >= 1
    && first <= now && lastGrant <= now
    && (calls >= 2 ==> lastGrant >= first + (calls - 2) * base)
    && lastGrant - first <= RATE_GIVE_UP
  }

  lemma CallsLimited(first: int, lastGrant: int, calls: nat, base: int, now: int)
    requires base > 0 && Progressing(first, lastGrant, calls, base, now)
    ensures calls + 1 <= RATE_GIVE_UP / base + 3
  {
    if calls >= 2 {
      assert (calls - 2) * base <= RATE_GIVE_UP;
      DivGe(RATE_GIVE_UP, calls - 2, base);
    }
  }

  lemma NextCall(first: int, lastGrant: int, calls: nat, base: int, now: int, at: int, now': int)
    requires base >= 0 && Progressing(first, lastGrant, calls, base, now)
    requires at >= lastGrant + base && at >= first && at <= now' && first <= now'
    requires at - first <= RATE_GIVE_UP
    ensures Progressing(first, at, calls + 1, base, now')
  {
    assert (calls + 1 - 2) * base == (calls - 2) * base + base;
  }

  /** Reports a 429 to the throttle after the others have acted. */
  method Report(t: Throttle, m: Moment, retryAfter: int, ghost perMin: int, ghost base: int, ghost next: int,
                ghost t0: State, ghost steps: seq<Step>, ghost w: World, ghost grants: seq<nat>)
      returns (ghost steps': seq<Step>)
    requires Kept(t.View(), perMin, base, next) && FixedRate(m.others, perMin)
    requires Accounted(t0, steps, t.View(), w, grants)
    modifies t
    ensures Kept(t.View(), perMin, base, next)
    ensures t.View() == RunSteps(t0, steps') && Reports(steps') == Reports(steps) + [Hit(m.now, retryAfter)]
  {
    OthersKeep(t.View(), m.others);
    OthersAccounted(t0, steps, t.View(), w, grants, m.others);
    Act(t, m.others);
    steps' := steps + AllTheirs(m.others);
    StepKeepsRate(t.View(), Hit(m.now, retryAfter));
    MineRuns(t0, steps', t.View(), Hit(m.now, retryAfter));
    t.Hit(m.now, retryAfter);
    steps' := steps' + [Mine(Hit(m.now, retryAfter))];
  }

  /** What is known when the next slot is awaited: nothing before the first 429, and
      afterwards how far the call has progressed. */
  ghost predicate Retrying(first: Option<int>, lastGrant: int, calls: nat, base: int, seen: int, next: int) {
    match first
    case None => calls == 0
    case Some(f) => next == lastGrant + base && Progressing(f, lastGrant, calls, base, seen)
  }

  lemma RetryStep(first: Option<int>, lastGrant: int, calls: nat, base: int, seen: int, next: int,
                  at: int, firstNow: int, now: int)
    requires base > 0 && Retrying(first, lastGrant, calls, base, seen, next)
    requires at >= next && (first.Some? ==> seen <= at) && at <= firstNow <= now
    requires var f := if first.Some? then first.value else firstNow; now - f <= RATE_GIVE_UP
    ensures var f := if first.Some? then first.value else firstNow;
      Retrying(Some(f), at, calls + 1, base, now, at + base)
  {
    if first.Some? {
      NextCall(first.value, lastGrant, calls, base, seen, at, now);
    }
  }

  lemma CallFits(first: Option<int>, lastGrant: int, calls: nat, base: int, seen: int, next: int)
    requires base > 0 && Retrying(first, lastGrant, calls, base, seen, next)
    ensures calls + 1 <= RATE_GIVE_UP / base + 3
  {
    if first.Some? {
      CallsLimited(first.value, lastGrant, calls, base, seen);
    }
  }

  /** Every call but the last was answered with a 429, and the last one decides the outcome. */
  ghost predicate Answered(w: World, outcome: Outcome, calls: nat) {
    && (forall c: nat :: c + 1 < calls ==> w.answers(c).RateLimited?)
    && match outcome
       case Success => calls > 0 && w.answers(calls - 1) == Page
       case Failed => calls > 0 && w.answers(calls - 1) == OtherError
       case GaveUp => calls > 0 && w.answers(calls - 1).RateLimited?
       case _ => forall c: nat :: c < calls ==> w.answers(c).RateLimited?
  }

  /** How long after the first 429 the answer to call `c` was looked at, when call number i was
      granted at moment `grants[i]`: the 429 is reported at the moment after the grant, the
      clock is read for `first` at the one after that, and compared at the third. */
  ghost function LimitedFor(w: World, grants: seq<nat>, c: nat): int
    requires c < |grants|
  {
    w.moments(grants[c] + 3).now - w.moments(grants[0] + 2).now
  }

  /** The calls so far were granted at these moments and answered with a 429, and none was
      looked at too long after the first. */
  ghost predicate Tracked(w: World, grants: seq<nat>, first: Option<int>, seen: int, k: nat) {
    && (first.Some? <==> grants != [])
    && (first.Some? ==> k > 0 && first.value == w.moments(grants[0] + 2).now && seen == w.moments(k - 1).now)
    && (forall c :: 0 <= c < |grants| ==> grants[c] + 3 < k && LimitedFor(w, grants, c) <= RATE_GIVE_UP)
  }

  lemma OneMore(w: World, grants: seq<nat>, first: Option<int>, seen: int, k: nat, k': nat)
    requires Tracked(w, grants, first, seen, k) && k < k'
    ensures var all := grants + [k' - 1];
      && (forall c :: 0 <= c < |grants| ==> LimitedFor(w, all, c) == LimitedFor(w, grants, c) <= RATE_GIVE_UP)
      && (first.Some? ==> first.value == w.moments(all[0] + 2).now)
  {
    var all := grants + [k' - 1];
    assert grants != [] ==> all[0] == grants[0];
    forall c | 0 <= c < |grants| ensures LimitedFor(w, all, c) == LimitedFor(w, grants, c) <= RATE_GIVE_UP {
      assert all[c] == grants[c];
    }
  }

  /** After a 429 to the call granted at moment k - 1: gives up when the first one is more than
      RATE_GIVE_UP ago. */
  method Look(w: World, k: nat, first: Option<int>, ghost perMin: int, ghost base: int,
              ghost lastGrant: int, ghost seen: int, ghost next: int, ghost at: int, ghost grants: seq<nat>,
              ghost k0: nat)
      returns (gaveUp: bool, first': Option<int>, k': nat, ghost seen': int)
    requires base > 0 && Fair(w, perMin)
    requires k > 0 && at == w.moments(k - 1).now >= next
    requires Retrying(first, lastGrant, |grants|, base, seen, next)
    requires k0 < k && Tracked(w, grants, first, seen, k0)
    ensures k' == k + 3
    ensures gaveUp <==> LimitedFor(w, grants + [k - 1], |grants|) > RATE_GIVE_UP
    ensures !gaveUp ==>
      && Retrying(first', at, |grants| + 1, base, seen', at + base)
      && Tracked(w, grants + [k - 1], first', seen', k')
  {
    OneMore(w, grants, first, seen, k0, k);
    var firstNow, now := w.moments(k + 1).now, w.moments(k + 2).now;
    var since := if first.Some? then first.value else firstNow;
    first', k', seen' := Some(since), k + 3, now;
    gaveUp := now - since > RATE_GIVE_UP;
    if !gaveUp {
      RetryStep(first, lastGrant, |grants|, base, seen, next, at, firstNow, now);
    }
  }

  /** Call by call: a 429 that is looked at more than RATE_GIVE_UP after the first one ends the
      fetch, and nothing else makes it give up. */
  ghost predicate GivesUpInTime(w: World, gaveUp: bool, grants: seq<nat>, calls: nat) {
    && |grants| == calls
    && (forall c: nat :: c < calls && w.answers(c).RateLimited? ==>
          (LimitedFor(w, grants, c) > RATE_GIVE_UP <==> gaveUp && c == calls - 1))
  }

  /** What the answer to a call means for the fetch. */
  ghost function Meaning(w: World, grants: seq<nat>, k: nat): Outcome
    requires k > 0
  {
    match w.answers(|grants|)
    case Page => Success
    case OtherError => Failed
    case RateLimited(_) => if LimitedFor(w, grants + [k - 1], |grants|) > RATE_GIVE_UP then GaveUp else StillRunning
  }

  /** A 429 to the next call, or the end of the fetch, extends the account of the calls. */
  lemma OneMoreAnswer(w: World, outcome: Outcome, grants: seq<nat>, first: Option<int>, seen: int, k0: nat, k: nat)
    requires Answered(w, StillRunning, |grants|) && Tracked(w, grants, first, seen, k0) && k0 < k
    requires outcome == Meaning(w, grants, k)
    ensures Answered(w, outcome, |grants| + 1) && GivesUpInTime(w, outcome == GaveUp, grants + [k - 1], |grants| + 1)
  {
    OneMore(w, grants, first, seen, k0, k);
  }

  /** All calls so far were answered with a 429, in time. */
  ghost predicate Trying(w: World, grants: seq<nat>, first: Option<int>, lastGrant: int, base: int, seen: int,
                         next: int, k: nat) {
    && Retrying(first, lastGrant, |grants|, base, seen, next) && Tracked(w, grants, first, seen, k)
    && Answered(w, StillRunning, |grants|)
  }

  /** A fetch that ends here, for want of a slot, has not given up too late. */
  lemma EndsTrying(w: World, outcome: Outcome, grants: seq<nat>, first: Option<int>, lastGrant: int, base: int,
                   seen: int, next: int, k: nat)
    requires Trying(w, grants, first, lastGrant, base, seen, next, k) && (outcome.Cancelled? || outcome.StillRunning?)
    ensures Answered(w, outcome, |grants|) && GivesUpInTime(w, outcome == GaveUp, grants, |grants|)
  {
  }

  /** Tells the throttle how the call granted at moment k - 1 was answered. */
  method Tell(t: Throttle, w: World, k: nat, calls: nat, ghost perMin: int, ghost base: int, ghost next: int,
              ghost t0: State, ghost steps: seq<Step>, ghost grants: seq<nat>)
      returns (ghost steps': seq<Step>)
    requires Kept(t.View(), perMin, base, next) && Fair(w, perMin)
    requires k > 0 && calls == |grants| && Accounted(t0, steps, t.View(), w, grants)
    modifies t
    ensures Kept(t.View(), perMin, base, next)
    ensures Accounted(t0, steps', t.View(), w, grants + [k - 1])
  {
    steps' := steps;
    match w.answers(calls) {
      case Page =>
        StepKeepsRate(t.View(), Ok);
        MineRuns(t0, steps, t.View(), Ok);
        t.OK();
        steps' := steps + [Mine(Ok)];
      case OtherError =>
      case RateLimited(retryAfter) =>
        steps' := Report(t, w.moments(k), retryAfter, perMin, base, next, t0, steps, w, grants);
    }
    CallAccounted(t0, steps, old(t.View()), steps', t.View(), w, grants, k - 1);
  }

  /** Where the fetch stands after a call. */
  ghost predicate Called(w: World, outcome: Outcome, grants: seq<nat>, first: Option<int>, at: int, base: int,
                         seen: int, k: nat) {
    && Answered(w, outcome, |grants|) && GivesUpInTime(w, outcome == GaveUp, grants, |grants|) && outcome != Cancelled
    && (outcome == StillRunning ==> Trying(w, grants, first, at, base, seen, at + base, k))
  }

  lemma CallEnds(w: World, outcome: Outcome, grants: seq<nat>, grants': seq<nat>, first: Option<int>, seen: int,
                 k0: nat, k: nat, first': Option<int>, at: int, base: int, seen': int, k': nat)
    requires Answered(w, StillRunning, |grants|) && Tracked(w, grants, first, seen, k0) && k0 < k
    requires outcome == Meaning(w, grants, k) && grants' == grants + [k - 1]
    requires outcome == StillRunning ==>
      Retrying(first', at, |grants| + 1, base, seen', at + base) && Tracked(w, grants', first', seen', k')
    ensures Called(w, outcome, grants', first', at, base, seen', k')
  {
    OneMoreAnswer(w, outcome, grants, first, seen, k0, k);
  }

  /** What the answer to a call means for the fetch. */
  method Judge(w: World, k: nat, calls: nat, first: Option<int>, ghost perMin: int, ghost base: int,
               ghost lastGrant: int, ghost seen: int, ghost next: int, ghost at: int, ghost grants: seq<nat>,
               ghost k0: nat)
      returns (outcome: Outcome, first': Option<int>, k': nat, ghost seen': int)
    requires base > 0 && Fair(w, perMin) && k > 0 && at == w.moments(k - 1).now >= next
    requires calls == |grants| && k0 < k && Trying(w, grants, first, lastGrant, base, seen, next, k0)
    ensures k' >= k && (outcome == StillRunning ==> k' > k)
    ensures Called(w, outcome, grants + [k - 1], first', at, base, seen', k')
  {
    first', k', seen' := first, k, seen;
    match w.answers(calls) {
      case Page =>
        outcome := Success;
      case OtherError =>
        outcome := Failed;
      case RateLimited(_) =>
        var gaveUp;
        gaveUp, first', k', seen' := Look(w, k, first, perMin, base, lastGrant, seen, next, at, grants, k0);
        outcome := if gaveUp then GaveUp else StillRunning;
    }
    CallEnds(w, outcome, grants, grants + [k - 1], first, seen, k0, k, first', at, base, seen', k');
  }

  /** One call, granted at moment k - 1. */
  method CallOnce(t: Throttle, w: World, k: nat, calls: nat, first: Option<int>, ghost perMin: int, ghost base: int,
                  ghost lastGrant: int, ghost seen: int, ghost next: int, ghost at: int, ghost grants: seq<nat>,
                  ghost k0: nat, ghost t0: State, ghost steps: seq<Step>)
      returns (outcome: Outcome, first': Option<int>, k': nat, ghost seen': int, ghost steps': seq<Step>,
               ghost grants': seq<nat>)
    requires Kept(t.View(), perMin, base, at + base) && base > 0 && Fair(w, perMin)
    requires k > 0 && at == w.moments(k - 1).now >= next
    requires calls == |grants| && k0 < k && Trying(w, grants, first, lastGrant, base, seen, next, k0)
    requires Accounted(t0, steps, t.View(), w, grants)
    modifies t
    ensures |grants'| == calls + 1 && Accounted(t0, steps', t.View(), w, grants')
    ensures Called(w, outcome, grants', first', at, base, seen', k') && Kept(t.View(), perMin, base, at + base)
    ensures outcome == StillRunning ==> k' > k
  {
    grants' := grants + [k - 1];
    steps' := Tell(t, w, k, calls, perMin, base, at + base, t0, steps, grants);
    outcome, first', k', seen' := Judge(w, k, calls, first, perMin, base, lastGrant, seen, next, at, grants, k0);
  }

  /** How the fetch ended, or where it was cut off, after this many calls and moments. */
  ghost predicate Ended(w: World, outcome: Outcome, calls: nat, grants: seq<nat>, used: nat, budget: nat) {
    && Answered(w, outcome, calls) && GivesUpInTime(w, outcome == GaveUp, grants, calls)
    && (outcome == Cancelled ==> CancelledAt(w, 0, used))
    && (outcome == StillRunning ==> used >= budget)
  }

  /** One turn of the loop: a slot and a call. */
  method Turn(t: Throttle, w: World, k: nat, budget: nat, calls: nat, first: Option<int>,
              ghost perMin: int, ghost base: int, ghost lastGrant: int, ghost seen: int, ghost next: int,
              ghost grants: seq<nat>, ghost t0: State, ghost steps: seq<Step>)
      returns (done: bool, outcome: Outcome, calls': nat, first': Option<int>, k': nat,
               ghost lastGrant': int, ghost seen': int, ghost next': int, ghost grants': seq<nat>,
               ghost steps': seq<Step>)
    requires Kept(t.View(), perMin, base, next) && base > 0 && Fair(w, perMin)
    requires calls == |grants| && Trying(w, grants, first, lastGrant, base, seen, next, k)
    requires Accounted(t0, steps, t.View(), w, grants)
    modifies t
    ensures Sane(t.View()) && t.perMin == perMin && calls' <= RATE_GIVE_UP / base + 3
    ensures calls' == |grants'| && Accounted(t0, steps', t.View(), w, grants')
    ensures done ==> Ended(w, outcome, calls', grants', k', budget)
    ensures !done ==>
      && outcome == StillRunning && Kept(t.View(), perMin, base, next') && k' > k
      && Trying(w, grants', first', lastGrant', base, seen', next', k')
  {
    first', lastGrant', seen', next', grants' := first, lastGrant, seen, next, grants;
    var granted, cancelled;
    ghost var at;
    CallFits(first, lastGrant, calls, base, seen, next);
    granted, cancelled, k', at, steps' := Wait(t, w, k, budget, perMin, base, next, t0, steps, grants);
    if cancelled || !granted {
      done, outcome, calls' := true, if cancelled then Cancelled else StillRunning, calls;
      EndsTrying(w, outcome, grants, first, lastGrant, base, seen, next, k);
      return;
    }
    outcome, first', k', seen', steps', grants' :=
      CallOnce(t, w, k', calls, first, perMin, base, lastGrant, seen, next, at, grants, k, t0, steps');
    done, calls', lastGrant', next' := outcome != StillRunning, calls + 1, at, at + base;
  }

  /** The wrapped fetch: waits for a slot, calls, and after a 429 slows the throttle down and
      tries again, until it succeeds, fails otherwise, is cancelled, or has been rate
      limited for longer than RATE_GIVE_UP. */
  method Wrap(t: Throttle, w: World, budget: nat, ghost perMin: int, ghost base: int)
      returns (outcome: Outcome, calls: nat, ghost used: nat, ghost grants: seq<nat>, ghost steps: seq<Step>)
    requires Kept(t.View(), perMin, base, t.next) && base > 0 && Fair(w, perMin)
    modifies t
    // Among the steps of all goroutines, its own reports are one of each 429, with the pause that
    // upstream asks for, and one of the success.
    ensures calls == |grants| && Accounted(old(t.View()), steps, t.View(), w, grants)
    ensures calls <= RATE_GIVE_UP / base + 3
    ensures Ended(w, outcome, calls, grants, used, budget)
    ensures Sane(t.View()) && t.perMin == perMin
  {
    var first: Option<int> := None;
    var k := 0;
    outcome, calls, grants, steps := StillRunning, 0, [], [];
    ghost var lastGrant, seen, next := 0, 0, t.next;
    while k < budget
      invariant Kept(t.View(), perMin, base, next) && outcome == StillRunning
      invariant calls == |grants| <= RATE_GIVE_UP / base + 3
      invariant Trying(w, grants, first, lastGrant, base, seen, next, k)
      invariant Accounted(old(t.View()), steps, t.View(), w, grants)
      decreases budget - k
    {
      var done;
      done, outcome, calls, first, k, lastGrant, seen, next, grants, steps :=
        Turn(t, w, k, budget, calls, first, perMin, base, lastGrant, seen, next, grants, old(t.View()), steps);
      if done {
        return outcome, calls, k, grants, steps;
      }
    }
    used := k;
    EndsTrying(w, outcome, grants, first, lastGrant, base, seen, next, k);
  }
}
