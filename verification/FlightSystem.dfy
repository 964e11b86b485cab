/** All interleavings of the requests that share a summary service: calls arrive, decide,
    build, wait, wake up or leave, timers delete results, and the cache is invalidated. */
module FlightSystem {
  import opened Basics
  import opened SingleFlight

  /** What a call of Get asks for besides its key: the end of the period in unix seconds, and
      the instant of the call.  They fix how old a cached answer may be. */
  datatype Ask = Ask(endTs: int, at: int)
  {
    function Lifetime(): int {
      Ttl(endTs, at / SECOND)
    }
  }

  datatype Answer =
    | FromCache(entry: Entry, denied: bool, ask: Ask, at: int)
    | Built(result: Result)
    | Shared(result: Result)
    | Interrupted

  /** Where one call of Get stands.  `joined` is the step at which a waiter started to wait. */
  datatype Thread =
    | Ready(key: Key, refresh: bool, ask: Ask)
    | Building(key: Key, ch: Chan)
    | Waiting(key: Key, ch: Chan, joined: nat, ask: Ask)
    | Returned(key: Key, answer: Answer)

  /** The key, the step, the outcome and the instant of a finished build, whose channel is closed. */
  datatype Closing = Closing(key: Key, step: nat, ok: bool, at: int)

  datatype System = System(t: Tables, threads: map<nat, Thread>, made: Chan, closed: map<Chan, Closing>,
                           timers: multiset<Key>, step: nat, now: int)

  datatype Event =
    | Call(id: nat, key: Key, refresh: bool, endTs: int, now: int)
    | Consider(id: nat, now: int)
    | Complete(id: nat, ok: bool, now: int, victim: Key)
    | Wake(id: nat)
    | Leave(id: nat)
    | Timer(key: Key)
    | Clear

  ghost predicate Enabled(s: System, ev: Event) {
    match ev
    case Call(id, _, _, _, now) => id !in s.threads && now >= s.now
    case Consider(id, now) => id in s.threads && s.threads[id].Ready? && now >= s.now
    case Complete(id, ok, now, victim) =>
      id in s.threads && s.threads[id].Building? && now >= s.now
      && Evicts(s.t.cache, s.threads[id].key, s.threads[id].ch, ok, now, victim)
    case Wake(id) => id in s.threads && s.threads[id].Waiting? && s.threads[id].ch in s.closed
    case Leave(id) => id in s.threads && s.threads[id].Waiting?
    case Timer(key) => key in s.timers
    case Clear => true
  }

  /** What the first locked block decides for a call. */
  ghost function DecisionOf(s: System, id: nat, now: int): Decision
    requires id in s.threads && s.threads[id].Ready?
  {
    var Ready(key, refresh, ask) := s.threads[id];
    Decide(s.t, key, ask.Lifetime(), refresh, now)
  }

  ghost function Considered(s: System, id: nat, now: int): System
    requires id in s.threads && s.threads[id].Ready?
  {
    var Ready(key, refresh, ask) := s.threads[id];
    var t' := Enter(s.t, key, ask.Lifetime(), refresh, now, s.made);
    match DecisionOf(s, id, now)
    case Cached(e, denied, _) =>
      s.(t := t', threads := s.threads[id := Returned(key, FromCache(e, denied, ask, now))], now := now)
    case Join(ch) => s.(t := t', threads := s.threads[id := Waiting(key, ch, s.step, ask)], now := now)
    case Build => s.(t := t', threads := s.threads[id := Building(key, s.made)], made := s.made + 1, now := now)
  }

  ghost function Completed(s: System, id: nat, ok: bool, now: int, victim: Key): System
    requires id in s.threads && s.threads[id].Building?
  {
    var key, ch := s.threads[id].key, s.threads[id].ch;
    s.(t := Finish(s.t, key, ch, ok, now, victim),
       threads := s.threads[id := Returned(key, Built(Result(ch, ok)))],
       closed := s.closed[ch := Closing(key, s.step, ok, now)],
       timers := s.timers + multiset{key}, now := now)
  }

  ghost function Woken(s: System, id: nat): System
    requires id in s.threads && s.threads[id].Waiting?
  {
    var Waiting(key, _, _, ask) := s.threads[id];
    if key in s.t.results then s.(threads := s.threads[id := Returned(key, Shared(s.t.results[key]))])
    else s.(threads := s.threads[id := Ready(key, false, ask)])
  }

  ghost function Apply(s: System, ev: Event): System
    requires Enabled(s, ev)
  {
    var s' := match ev
      case Call(id, key, refresh, endTs, now) =>
        s.(threads := s.threads[id := Ready(key, refresh, Ask(endTs, now))], now := now)
      case Consider(id, now) => Considered(s, id, now)
      case Complete(id, ok, now, victim) => Completed(s, id, ok, now, victim)
      case Wake(id) => Woken(s, id)
      case Leave(id) => s.(threads := s.threads[id := Returned(s.threads[id].key, Interrupted)])
      case Timer(key) => s.(t := s.t.(results := Without(s.t.results, key)), timers := s.timers - multiset{key})
      case Clear => s.(t := s.t.(cache := map[]));
    s'.(step := s.step + 1)
  }

  // ---------------------------------------------------------------- the invariant

  /** A running builder's channel is the one registered for its key, and still open. */
  ghost predicate BuildersRegistered(s: System) {
    forall id :: id in s.threads && s.threads[id].Building? ==>
      && s.threads[id].key in s.t.inflight && s.t.inflight[s.threads[id].key] == s.threads[id].ch
      && s.threads[id].ch < s.made && s.threads[id].ch !in s.closed
  }

  /** Every registered channel belongs to a running builder of that key. */
  ghost predicate RegisteredBuilds(s: System) {
    forall key :: key in s.t.inflight ==>
      exists id :: id in s.threads && s.threads[id] == Building(key, s.t.inflight[key])
  }

  ghost predicate BuildersDiffer(s: System) {
    forall a, b :: a in s.threads && b in s.threads && s.threads[a].Building? && s.threads[b].Building? && a != b ==>
      s.threads[a].ch != s.threads[b].ch
  }

  /** A waiter's channel belongs to a running build of its key, or was closed after the
      waiter joined. */
  ghost predicate WaitersServed(s: System) {
    forall id :: id in s.threads && s.threads[id].Waiting? ==>
      var w := s.threads[id];
      if w.ch in s.closed then s.closed[w.ch].key == w.key && s.closed[w.ch].step > w.joined
      else w.key in s.t.inflight && s.t.inflight[w.key] == w.ch && w.joined < s.step
  }

  /** A stored result is that of the last finished build of its key. */
  ghost predicate ResultsLatest(s: System) {
    forall key :: key in s.t.results ==>
      var b := s.t.results[key].build;
      && b in s.closed && s.closed[b].key == key
      && forall ch :: ch in s.closed && s.closed[ch].key == key ==> s.closed[ch].step <= s.closed[b].step
  }

  ghost predicate ClosedInPast(s: System) {
    forall ch :: ch in s.closed ==> ch < s.made && s.closed[ch].step < s.step
  }

  ghost predicate Inv(s: System) {
    && BuildersRegistered(s) && RegisteredBuilds(s) && BuildersDiffer(s)
    && WaitersServed(s) && ResultsLatest(s) && ClosedInPast(s)
    && |s.t.cache| <= CACHE_MAX && s.t.lastAny <= s.now
  }

  lemma ConsiderCached(s: System, id: nat, now: int)
    requires Inv(s) && Enabled(s, Consider(id, now))
    requires DecisionOf(s, id, now).Cached?
    ensures Inv(Apply(s, Consider(id, now)))
  {
    OthersKeepBuilds(s, Apply(s, Consider(id, now)), id);
  }

  lemma ConsiderJoin(s: System, id: nat, now: int)
    requires Inv(s) && Enabled(s, Consider(id, now))
    requires DecisionOf(s, id, now).Join?
    ensures Inv(Apply(s, Consider(id, now)))
  {
    OthersKeepBuilds(s, Apply(s, Consider(id, now)), id);
    var key := s.threads[id].key;
    var o :| o in s.threads && s.threads[o] == Building(key, s.t.inflight[key]);
    assert s.t.inflight[key] !in s.closed;
  }

  lemma BuildRegisters(s: System, id: nat, now: int)
    requires Inv(s) && Enabled(s, Consider(id, now))
    requires DecisionOf(s, id, now).Build?
    ensures RegisteredBuilds(Apply(s, Consider(id, now)))
  {
    var s', key := Apply(s, Consider(id, now)), s.threads[id].key;
    forall k | k in s'.t.inflight
      ensures exists o :: o in s'.threads && s'.threads[o] == Building(k, s'.t.inflight[k])
    {
      if k == key {
        assert s'.threads[id] == Building(key, s.made);
      } else {
        var o :| o in s.threads && s.threads[o] == Building(k, s.t.inflight[k]);
        assert s'.threads[o] == s.threads[o];
      }
    }
  }

  lemma BuildBuilders(s: System, id: nat, now: int)
    requires Inv(s) && Enabled(s, Consider(id, now))
    requires DecisionOf(s, id, now).Build?
    ensures var s' := Apply(s, Consider(id, now)); BuildersRegistered(s') && BuildersDiffer(s')
  {
    assert s.threads[id].key !in s.t.inflight;
  }

  lemma BuildWaiters(s: System, id: nat, now: int)
    requires Inv(s) && Enabled(s, Consider(id, now))
    requires DecisionOf(s, id, now).Build?
    ensures var s' := Apply(s, Consider(id, now)); WaitersServed(s') && ResultsLatest(s') && ClosedInPast(s')
  {
    assert s.threads[id].key !in s.t.inflight;
  }

  lemma ConsiderBuild(s: System, id: nat, now: int)
    requires Inv(s) && Enabled(s, Consider(id, now))
    requires DecisionOf(s, id, now).Build?
    ensures Inv(Apply(s, Consider(id, now)))
  {
    BuildRegisters(s, id, now);
    BuildBuilders(s, id, now);
    BuildWaiters(s, id, now);
  }

  lemma CompleteBuilders(s: System, id: nat, ok: bool, now: int, victim: Key)
    requires Inv(s) && Enabled(s, Complete(id, ok, now, victim))
    ensures var s' := Apply(s, Complete(id, ok, now, victim));
      BuildersRegistered(s') && RegisteredBuilds(s') && BuildersDiffer(s')
  {
    var s' := Apply(s, Complete(id, ok, now, victim));
    var key, ch := s.threads[id].key, s.threads[id].ch;
    forall o | o in s'.threads && s'.threads[o].Building?
      ensures o in s.threads && s'.threads[o] == s.threads[o] && s.threads[o].ch != ch && s.threads[o].key != key
    {
      assert o != id;
    }
    forall k | k in s'.t.inflight
      ensures exists o :: o in s'.threads && s'.threads[o] == Building(k, s'.t.inflight[k])
    {
      var o :| o in s.threads && s.threads[o] == Building(k, s.t.inflight[k]);
      assert s'.threads[o] == s.threads[o];
    }
  }

  lemma CompleteServes(s: System, id: nat, ok: bool, now: int, victim: Key)
    requires Inv(s) && Enabled(s, Complete(id, ok, now, victim))
    ensures WaitersServed(Apply(s, Complete(id, ok, now, victim)))
  {
    var s' := Apply(s, Complete(id, ok, now, victim));
    var key, ch := s.threads[id].key, s.threads[id].ch;
    forall o | o in s'.threads && s'.threads[o].Waiting?
      ensures var w := s'.threads[o];
        if w.ch in s'.closed then s'.closed[w.ch].key == w.key && s'.closed[w.ch].step > w.joined
        else w.key in s'.t.inflight && s'.t.inflight[w.key] == w.ch && w.joined < s'.step
    {
      var w := s.threads[o];
      if w.ch == ch {
        assert w.ch !in s.closed;
        var b :| b in s.threads && s.threads[b] == Building(w.key, s.t.inflight[w.key]);
        assert b == id;
      } else if w.ch !in s.closed {
        assert w.key != key;
      }
    }
  }

  lemma CompleteResults(s: System, id: nat, ok: bool, now: int, victim: Key)
    requires Inv(s) && Enabled(s, Complete(id, ok, now, victim))
    ensures var s' := Apply(s, Complete(id, ok, now, victim));
      ResultsLatest(s') && ClosedInPast(s') && |s'.t.cache| <= CACHE_MAX && s'.t.lastAny <= s'.now
  {
    FinishKeepsCacheSmall(s.t, s.threads[id].key, s.threads[id].ch, ok, now, victim);
    assert s.threads[id].ch !in s.closed;
  }

  lemma WakeKeeps(s: System, id: nat)
    requires Inv(s) && Enabled(s, Wake(id))
    ensures Inv(Apply(s, Wake(id)))
  {
    OthersKeepBuilds(s, Apply(s, Wake(id)), id);
  }

  /** Changing a thread that builds nothing leaves the registered builds alone. */
  lemma OthersKeepBuilds(s: System, s': System, id: nat)
    requires RegisteredBuilds(s) && s'.t.inflight == s.t.inflight
    requires id in s'.threads && s'.threads == s.threads[id := s'.threads[id]]
    requires id in s.threads ==> !s.threads[id].Building?
    ensures RegisteredBuilds(s')
  {
    forall k | k in s'.t.inflight
      ensures exists o :: o in s'.threads && s'.threads[o] == Building(k, s'.t.inflight[k])
    {
      var o :| o in s.threads && s.threads[o] == Building(k, s.t.inflight[k]);
      assert s'.threads[o] == s.threads[o];
    }
  }

  lemma CallKeeps(s: System, id: nat, key: Key, refresh: bool, endTs: int, now: int)
    requires Inv(s) && Enabled(s, Call(id, key, refresh, endTs, now))
    ensures Inv(Apply(s, Call(id, key, refresh, endTs, now)))
  {
    OthersKeepBuilds(s, Apply(s, Call(id, key, refresh, endTs, now)), id);
  }

  lemma LeaveKeeps(s: System, id: nat)
    requires Inv(s) && Enabled(s, Leave(id))
    ensures Inv(Apply(s, Leave(id)))
  {
    OthersKeepBuilds(s, Apply(s, Leave(id)), id);
  }

  lemma TimerKeeps(s: System, key: Key)
    requires Inv(s) && Enabled(s, Timer(key))
    ensures Inv(Apply(s, Timer(key)))
  {
  }

  lemma ConsiderKeeps(s: System, id: nat, now: int)
    requires Inv(s) && Enabled(s, Consider(id, now))
    ensures Inv(Apply(s, Consider(id, now)))
  {
    match DecisionOf(s, id, now) {
      case Cached(_, _, _) => ConsiderCached(s, id, now);
      case Join(_) => ConsiderJoin(s, id, now);
      case Build => ConsiderBuild(s, id, now);
    }
  }

  lemma CompleteKeeps(s: System, id: nat, ok: bool, now: int, victim: Key)
    requires Inv(s) && Enabled(s, Complete(id, ok, now, victim))
    ensures Inv(Apply(s, Complete(id, ok, now, victim)))
  {
    CompleteBuilders(s, id, ok, now, victim);
    CompleteServes(s, id, ok, now, victim);
    CompleteResults(s, id, ok, now, victim);
  }

  lemma StepKeeps(s: System, ev: Event)
    requires Inv(s) && Enabled(s, ev)
    ensures Inv(Apply(s, ev))
  {
    match ev {
      case Call(id, key, refresh, endTs, now) => CallKeeps(s, id, key, refresh, endTs, now);
      case Consider(id, now) => ConsiderKeeps(s, id, now);
      case Complete(id, ok, now, victim) => CompleteKeeps(s, id, ok, now, victim);
      case Wake(id) => WakeKeeps(s, id);
      case Leave(id) => LeaveKeeps(s, id);
      case Timer(key) => TimerKeeps(s, key);
      case Clear =>
    }
  }

  // ---------------------------------------------------------------- all histories

  ghost predicate Legal(s: System, evs: seq<Event>)
    decreases |evs|
  {
    evs == [] || (Enabled(s, evs[0]) && Legal(Apply(s, evs[0]), evs[1..]))
  }

  ghost function Run(s: System, evs: seq<Event>): System
    requires Legal(s, evs)
    decreases |evs|
  {
    if evs == [] then s else Run(Apply(s, evs[0]), evs[1..])
  }

  /** A new service at the instant `clock`. */
  ghost function Start(clock: nat): System {
    System(Tables(map[], map[], map[], ZERO_TIME), map[], 0, map[], multiset{}, 0, clock)
  }

  lemma {:induction false} HistoryKeeps(s: System, evs: seq<Event>)
    requires Inv(s) && Legal(s, evs)
    ensures Inv(Run(s, evs))
    decreases |evs|
  {
    if evs != [] {
      StepKeeps(s, evs[0]);
      HistoryKeeps(Apply(s, evs[0]), evs[1..]);
    }
  }

  ghost predicate Builds(s: System, id: nat) {
    id in s.threads && s.threads[id].Building?
  }

  /** Single flight: after any history, two running builders work on different keys, a key is
      registered exactly while it is being built, and every blocked call waits for a build
      of its own key that is running or has finished since it began to wait. */
  lemma OneBuilderPerKey(clock: nat, evs: seq<Event>)
    requires Legal(Start(clock), evs)
    ensures var s := Run(Start(clock), evs);
      && (forall a, b :: Builds(s, a) && Builds(s, b) && a != b ==> s.threads[a].key != s.threads[b].key)
      && (forall key :: key in s.t.inflight <==> exists id :: Builds(s, id) && s.threads[id].key == key)
      && WaitersServed(s)
      && |s.t.cache| <= CACHE_MAX
  {
    HistoryKeeps(Start(clock), evs);
    var s := Run(Start(clock), evs);
    forall key | key in s.t.inflight
      ensures exists id :: Builds(s, id) && s.threads[id].key == key
    {
      var id :| id in s.threads && s.threads[id] == Building(key, s.t.inflight[key]);
      assert Builds(s, id) && s.threads[id].key == key;
    }
  }

  /** A result that a waiter takes over was produced for its key by a build that finished
      after the waiter began to wait; no older result can still be there. */
  lemma SharedResultsAreFresh(clock: nat, evs: seq<Event>, id: nat)
    requires Legal(Start(clock), evs) && Enabled(Run(Start(clock), evs), Wake(id))
    ensures var s := Run(Start(clock), evs);
      var w := s.threads[id];
      w.key in s.t.results ==>
        var b := s.t.results[w.key].build;
        b in s.closed && s.closed[b].key == w.key && s.closed[b].step > w.joined
  {
    HistoryKeeps(Start(clock), evs);
  }

  ghost predicate ResultsTimed(s: System) {
    forall key :: key in s.t.results ==> key in s.timers
  }

  lemma {:induction false} TimersStay(s: System, evs: seq<Event>)
    requires ResultsTimed(s) && Legal(s, evs)
    ensures ResultsTimed(Run(s, evs))
    decreases |evs|
  {
    if evs != [] {
      TimersStay(Apply(s, evs[0]), evs[1..]);
    }
  }

  /** Every result left for waiters has a pending timer that deletes it. */
  lemma ResultsWillExpire(clock: nat, evs: seq<Event>, key: Key)
    requires Legal(Start(clock), evs) && key in Run(Start(clock), evs).t.results
    ensures var s := Run(Start(clock), evs);
      Enabled(s, Timer(key)) && key !in Apply(s, Timer(key)).t.results
  {
    TimersStay(Start(clock), evs);
  }

  /** A waiter whose build has left a result takes it; one that comes too late looks at the tables
      again, as an ordinary call. */
  lemma WaitersTakeResults(s: System, id: nat)
    requires Enabled(s, Wake(id))
    ensures var Waiting(key, _, _, ask) := s.threads[id];
      Apply(s, Wake(id)).threads[id] ==
        if key in s.t.results then Returned(key, Shared(s.t.results[key])) else Ready(key, false, ask)
    ensures Apply(s, Wake(id)).t == s.t
  {
  }

  // ---------------------------------------------------------------- cooldown

  /** A forced refresh that finds its key cached and is let through. */
  ghost predicate ForcedThrough(s: System, ev: Event) {
    && ev.Consider? && Enabled(s, ev)
    && s.threads[ev.id].refresh && s.threads[ev.id].key in s.t.cache
    && !DecisionOf(s, ev.id, ev.now).Cached?
  }

  /** A forced refresh that is let through, cached or not, starts the global cooldown. */
  ghost predicate ForcedAny(s: System, ev: Event) {
    && ev.Consider? && Enabled(s, ev) && s.threads[ev.id].refresh
    && !DecisionOf(s, ev.id, ev.now).Cached?
  }

  lemma LastAnyStep(s: System, ev: Event)
    requires Enabled(s, ev) && s.t.lastAny <= s.now
    ensures Apply(s, ev).t.lastAny >= s.t.lastAny
  {
  }

  lemma {:induction false} LastAnyGrows(s: System, evs: seq<Event>)
    requires Inv(s) && Legal(s, evs)
    ensures Run(s, evs).t.lastAny >= s.t.lastAny
    decreases |evs|
  {
    if evs != [] {
      StepKeeps(s, evs[0]);
      LastAnyStep(s, evs[0]);
      LastAnyGrows(Apply(s, evs[0]), evs[1..]);
    }
  }

  /** The instant of the last forced refresh that was let through, and `last` if there was none. */
  ghost function LastLetThrough(s: System, evs: seq<Event>, last: int): int
    requires Legal(s, evs)
    decreases |evs|
  {
    if evs == [] then last
    else LastLetThrough(Apply(s, evs[0]), evs[1..], if ForcedAny(s, evs[0]) then evs[0].now else last)
  }

  /** The global cooldown counts from just that instant: no other call starts it. */
  lemma {:induction false} CooldownCountsFromForced(s: System, evs: seq<Event>)
    requires Legal(s, evs)
    ensures Run(s, evs).t.lastAny == LastLetThrough(s, evs, s.t.lastAny)
    decreases |evs|
  {
    if evs != [] {
      CooldownCountsFromForced(Apply(s, evs[0]), evs[1..]);
    }
  }

  /** So after any history a forced refresh is refused exactly when its key is cached and either the
      entry was built less than 10 minutes ago or the last forced refresh that was let through,
      of whatever key, is less than 2 minutes ago. */
  lemma RefusedExactly(clock: nat, evs: seq<Event>, id: nat, now: int)
    requires Legal(Start(clock), evs) && Enabled(Run(Start(clock), evs), Consider(id, now))
    requires Run(Start(clock), evs).threads[id].refresh
    ensures var s := Run(Start(clock), evs);
      var key, last := s.threads[id].key, LastLetThrough(Start(clock), evs, ZERO_TIME);
      DecisionOf(s, id, now).Cached? <==>
        key in s.t.cache && (now < s.t.cache[key].at + 600 * 1_000_000_000 || now < last + 120 * 1_000_000_000)
  {
    CooldownCountsFromForced(Start(clock), evs);
    var s := Run(Start(clock), evs);
    RefusedExactlyBeforeOpening(s.t, s.threads[id].key, s.threads[id].ask.Lifetime(), now);
  }

  /** A call asks for a refresh at most once: after it was let through it goes on as an ordinary
      one, also when it wakes up and finds no result. */
  lemma {:induction false} ForcedAtMostOnce(s: System, id: nat, evs: seq<Event>)
    requires Legal(s, evs) && id in s.threads && (s.threads[id].Ready? ==> !s.threads[id].refresh)
    ensures id in Run(s, evs).threads
    ensures Run(s, evs).threads[id].Ready? ==> !Run(s, evs).threads[id].refresh
    decreases |evs|
  {
    if evs != [] {
      ForcedAtMostOnce(Apply(s, evs[0]), id, evs[1..]);
    }
  }

  /** Two forced refreshes of which the later one finds its key cached are at least the
      global cooldown apart, whatever happens in between and whatever their keys; and the
      later one comes at least the key's own cooldown after its entry was built. */
  lemma ForcedRefreshesApart(clock: nat, before: seq<Event>, first: Event, between: seq<Event>, second: Event)
    requires Legal(Start(clock), before)
    requires ForcedAny(Run(Start(clock), before), first)
    requires Legal(Apply(Run(Start(clock), before), first), between)
    requires ForcedThrough(Run(Apply(Run(Start(clock), before), first), between), second)
    ensures second.now >= first.now + GLOBAL_COOLDOWN
    ensures var s := Run(Apply(Run(Start(clock), before), first), between);
      second.now >= s.t.cache[s.threads[second.id].key].at + REFRESH_COOLDOWN
  {
    var s0 := Run(Start(clock), before);
    HistoryKeeps(Start(clock), before);
    StepKeeps(s0, first);
    LastAnyGrows(Apply(s0, first), between);
  }

  /** The call's refresh is not let through before this instant. */
  ghost predicate HeldBack(s: System, id: nat, until: int) {
    forall now :: ForcedAny(s, Consider(id, now)) ==> now >= until
  }

  /** While the global cooldown runs, a forced refresh is held back until it is over if and only
      if its key is cached. */
  lemma HeldBackExactlyIfCached(s: System, id: nat, until: int)
    requires id in s.threads && s.threads[id].Ready? && s.threads[id].refresh
    requires s.now < until <= s.t.lastAny + GLOBAL_COOLDOWN
    ensures s.threads[id].key in s.t.cache <==> HeldBack(s, id, until)
  {
    var Ready(key, _, ask) := s.threads[id];
    if key in s.t.cache {
      forall now | ForcedAny(s, Consider(id, now)) ensures now >= until {
        RefusedExactlyBeforeOpening(s.t, key, ask.Lifetime(), now);
      }
    } else {
      RefusedExactlyBeforeOpening(s.t, key, ask.Lifetime(), s.now);
      assert ForcedAny(s, Consider(id, s.now));
    }
  }

  /** So after a forced refresh that was let through, whatever happened in between and whatever
      the keys: a call that asks for another one within the global cooldown is held back until
      it is over if and only if its key is cached by then. */
  lemma CooldownHoldsExactlyForCached(clock: nat, before: seq<Event>, first: Event, between: seq<Event>, id: nat)
    requires Legal(Start(clock), before) && ForcedAny(Run(Start(clock), before), first)
    requires Legal(Apply(Run(Start(clock), before), first), between)
    requires var s := Run(Apply(Run(Start(clock), before), first), between);
      id in s.threads && s.threads[id].Ready? && s.threads[id].refresh && s.now < first.now + GLOBAL_COOLDOWN
    ensures var s := Run(Apply(Run(Start(clock), before), first), between);
      s.threads[id].key in s.t.cache <==> HeldBack(s, id, first.now + GLOBAL_COOLDOWN)
  {
    var s0 := Run(Start(clock), before);
    HistoryKeeps(Start(clock), before);
    StepKeeps(s0, first);
    LastAnyGrows(Apply(s0, first), between);
    HeldBackExactlyIfCached(Run(Apply(s0, first), between), id, first.now + GLOBAL_COOLDOWN);
  }

  /** Two refreshes at the same instant of keys that are neither cached nor being built both
      start a build. */
  lemma UncachedRefreshesIgnoreCooldown(s: System, a: nat, b: nat, ka: Key, kb: Key, now: int)
    requires Inv(s) && a != b && ka != kb && now >= s.now
    requires a in s.threads && s.threads[a].Ready? && s.threads[a].key == ka && s.threads[a].refresh
    requires b in s.threads && s.threads[b].Ready? && s.threads[b].key == kb && s.threads[b].refresh
    requires ka !in s.t.cache && ka !in s.t.inflight && kb !in s.t.cache && kb !in s.t.inflight
    ensures ForcedAny(s, Consider(a, now))
    ensures ForcedAny(Apply(s, Consider(a, now)), Consider(b, now))
    ensures var s' := Apply(Apply(s, Consider(a, now)), Consider(b, now));
      s'.threads[a].Building? && s'.threads[b].Building?
  {
  }

  lemma RunTwo(s: System, a: Event, b: Event)
    ensures Legal(s, [a, b]) <==> Enabled(s, a) && Enabled(Apply(s, a), b)
    ensures Legal(s, [a, b]) ==> Run(s, [a, b]) == Apply(Apply(s, a), b)
  {
    assert [a, b][1..] == [b] && [b][1..] == [];
    if Enabled(s, a) {
      var s' := Apply(s, a);
      assert Legal(s', [b]) <==> Enabled(s', b);
      assert Legal(s', [b]) ==> Run(s', [b]) == Apply(s', b);
    }
  }

  /** Four events from a fresh service lead there: two calls for different periods, and the
      first look of each at the tables. */
  lemma UncachedRefreshesHappen(clock: nat, ka: Key, kb: Key, endTs: int)
    requires ka != kb
    ensures var calls := [Call(0, ka, true, endTs, clock), Call(1, kb, true, endTs, clock)];
      && Legal(Start(clock), calls)
      && var s := Run(Start(clock), calls);
         && Legal(s, [Consider(0, clock), Consider(1, clock)])
         && ForcedAny(s, Consider(0, clock))
         && ForcedAny(Apply(s, Consider(0, clock)), Consider(1, clock))
  {
    var a, b := Call(0, ka, true, endTs, clock), Call(1, kb, true, endTs, clock);
    RunTwo(Start(clock), a, b);
    var s := Run(Start(clock), [a, b]);
    HistoryKeeps(Start(clock), [a, b]);
    UncachedRefreshesIgnoreCooldown(s, 0, 1, ka, kb, clock);
    RunTwo(s, Consider(0, clock), Consider(1, clock));
  }

  // ---------------------------------------------------------------- what is answered

  /** Cached entries are builds of their own key that succeeded, dated when they did. */
  ghost predicate CacheBuilt(s: System) {
    forall key :: key in s.t.cache ==>
      var e := s.t.cache[key];
      && e.build in s.closed && s.closed[e.build].key == key && s.closed[e.build].ok
      && s.closed[e.build].at == e.at <= s.now
  }

  /** The results left for the waiters say how their builds ended. */
  ghost predicate ResultsTold(s: System) {
    forall key :: key in s.t.results ==> Told(s, key, s.t.results[key])
  }

  /** A build of this key ended so. */
  ghost predicate Told(s: System, key: Key, r: Result) {
    r.build in s.closed && s.closed[r.build].key == key && s.closed[r.build].ok == r.ok
  }

  /** An answer is a finished build of the key asked for, with its outcome; a cached one is a
      build that succeeded and is younger than its lifetime, or was given because the forced
      refresh was refused. */
  ghost predicate Fitting(s: System, key: Key, answer: Answer) {
    match answer
    case FromCache(e, denied, ask, at) =>
      && e.build in s.closed && s.closed[e.build].key == key && s.closed[e.build].ok && s.closed[e.build].at == e.at
      && e.at <= at && ask.at <= at <= s.now
      && (denied || at < e.at + ask.Lifetime())
    case Built(r) => Told(s, key, r)
    case Shared(r) => Told(s, key, r)
    case Interrupted => true
  }

  /** A thread that has returned has returned a fitting answer; no thread asks in the future. */
  ghost predicate ThreadFits(s: System, th: Thread) {
    match th
    case Returned(key, answer) => Fitting(s, key, answer)
    case Ready(_, _, ask) => ask.at <= s.now
    case Waiting(_, _, _, ask) => ask.at <= s.now
    case Building(_, _) => true
  }

  ghost predicate AnswersFit(s: System) {
    CacheBuilt(s) && ResultsTold(s) && forall id :: id in s.threads ==> ThreadFits(s, s.threads[id])
  }

  /** What fits keeps fitting while time passes and builds finish. */
  lemma FitsStay(s: System, s': System, th: Thread)
    requires ThreadFits(s, th) && s'.now >= s.now
    requires forall ch :: ch in s.closed ==> ch in s'.closed && s'.closed[ch] == s.closed[ch]
    ensures ThreadFits(s', th)
  {
  }

  /** So only the thread that moves and the cache have to be looked at. */
  lemma OthersFit(s: System, s': System, id: nat)
    requires AnswersFit(s) && s'.now >= s.now && CacheBuilt(s') && ResultsTold(s')
    requires forall ch :: ch in s.closed ==> ch in s'.closed && s'.closed[ch] == s.closed[ch]
    requires id in s'.threads && s'.threads == s.threads[id := s'.threads[id]] && ThreadFits(s', s'.threads[id])
    ensures AnswersFit(s')
  {
    forall o | o in s'.threads ensures ThreadFits(s', s'.threads[o]) {
      if o != id {
        FitsStay(s, s', s.threads[o]);
      }
    }
  }

  lemma ConsiderAnswers(s: System, id: nat, now: int)
    requires Inv(s) && AnswersFit(s) && Enabled(s, Consider(id, now))
    ensures AnswersFit(Apply(s, Consider(id, now)))
  {
    var s' := Apply(s, Consider(id, now));
    ServedWhileYoung(s.t, s.threads[id].key, s.threads[id].ask.Lifetime(), now);
    assert ThreadFits(s, s.threads[id]);
    assert s'.closed == s.closed && s'.t.cache == s.t.cache;
    OthersFit(s, s', id);
  }

  lemma CompleteCache(s: System, id: nat, ok: bool, now: int, victim: Key)
    requires Inv(s) && CacheBuilt(s) && Enabled(s, Complete(id, ok, now, victim))
    ensures CacheBuilt(Apply(s, Complete(id, ok, now, victim)))
    ensures ResultsTold(s) ==> ResultsTold(Apply(s, Complete(id, ok, now, victim)))
  {
    assert s.threads[id].ch !in s.closed;
  }

  lemma CompleteAnswers(s: System, id: nat, ok: bool, now: int, victim: Key)
    requires Inv(s) && AnswersFit(s) && Enabled(s, Complete(id, ok, now, victim))
    ensures AnswersFit(Apply(s, Complete(id, ok, now, victim)))
  {
    CompleteCache(s, id, ok, now, victim);
    assert s.threads[id].ch !in s.closed;
    OthersFit(s, Apply(s, Complete(id, ok, now, victim)), id);
  }

  lemma WakeAnswers(s: System, id: nat)
    requires Inv(s) && AnswersFit(s) && Enabled(s, Wake(id))
    ensures AnswersFit(Apply(s, Wake(id)))
  {
    assert ThreadFits(s, s.threads[id]) && ResultsLatest(s);
    OthersFit(s, Apply(s, Wake(id)), id);
  }

  lemma TablesAnswer(s: System, ev: Event)
    requires AnswersFit(s) && Enabled(s, ev) && (ev.Timer? || ev.Clear?)
    ensures AnswersFit(Apply(s, ev))
  {
    var s' := Apply(s, ev);
    forall id | id in s'.threads ensures ThreadFits(s', s'.threads[id]) {
      FitsStay(s, s', s.threads[id]);
    }
  }

  lemma StepAnswers(s: System, ev: Event)
    requires Inv(s) && AnswersFit(s) && Enabled(s, ev)
    ensures AnswersFit(Apply(s, ev))
  {
    match ev {
      case Call(id, key, refresh, endTs, now) => OthersFit(s, Apply(s, ev), id);
      case Consider(id, now) => ConsiderAnswers(s, id, now);
      case Complete(id, ok, now, victim) => CompleteAnswers(s, id, ok, now, victim);
      case Wake(id) => WakeAnswers(s, id);
      case Leave(id) => OthersFit(s, Apply(s, ev), id);
      case Timer(key) => TablesAnswer(s, ev);
      case Clear => TablesAnswer(s, ev);
    }
  }

  /** Over all histories, every answer is a finished build of the key asked for and tells how it
      ended; a cached answer is a build that succeeded and, unless it was a refusal, younger than
      the lifetime of its period: 15 minutes when the period ends less than a day before the
      call, and else 6 hours. */
  lemma {:induction false} AnswersAlwaysFit(s: System, evs: seq<Event>)
    requires Inv(s) && AnswersFit(s) && Legal(s, evs)
    ensures AnswersFit(Run(s, evs))
    decreases |evs|
  {
    if evs != [] {
      StepKeeps(s, evs[0]);
      StepAnswers(s, evs[0]);
      AnswersAlwaysFit(Apply(s, evs[0]), evs[1..]);
    }
  }

  /** No failed build is ever cached or answered from the cache. */
  lemma OnlySuccessesAreCached(clock: nat, evs: seq<Event>)
    requires Legal(Start(clock), evs)
    ensures var s := Run(Start(clock), evs);
      && (forall key :: key in s.t.cache ==> s.t.cache[key].build in s.closed && s.closed[s.t.cache[key].build].ok)
      && (forall id :: id in s.threads && s.threads[id].Returned? && s.threads[id].answer.FromCache? ==>
            var build := s.threads[id].answer.entry.build; build in s.closed && s.closed[build].ok)
  {
    AnswersAlwaysFit(Start(clock), evs);
    var s := Run(Start(clock), evs);
    forall id | id in s.threads && s.threads[id].Returned? && s.threads[id].answer.FromCache?
      ensures var build := s.threads[id].answer.entry.build; build in s.closed && s.closed[build].ok
    {
      assert ThreadFits(s, s.threads[id]);
    }
  }

  /** An ordinary call whose key is cached is answered from the cache exactly while the entry is
      younger than 15 minutes, or than 6 hours when the period ended more than a day ago. */
  lemma OrdinaryCallsAreServed(s: System, id: nat, now: int)
    requires Enabled(s, Consider(id, now)) && !s.threads[id].refresh && s.threads[id].key in s.t.cache
    ensures var ask, e := s.threads[id].ask, s.t.cache[s.threads[id].key];
      var minutes := if ask.endTs >= ask.at / 1_000_000_000 - 86400 then 15 else 360;
      var served := Returned(s.threads[id].key, FromCache(e, false, ask, now));
      Apply(s, Consider(id, now)).threads[id] == served <==> now < e.at + minutes * 60 * 1_000_000_000
  {
    ServedWhileYoung(s.t, s.threads[id].key, s.threads[id].ask.Lifetime(), now);
  }

  lemma CachedAnswersAreYoung(clock: nat, evs: seq<Event>, id: nat)
    requires Legal(Start(clock), evs) && id in Run(Start(clock), evs).threads
    requires var th := Run(Start(clock), evs).threads[id]; th.Returned? && th.answer.FromCache? && !th.answer.denied
    ensures var Returned(key, FromCache(e, _, ask, at)) := Run(Start(clock), evs).threads[id];
      && e.at <= at < e.at + TTL_HISTORY
      && (ask.endTs >= ask.at / SECOND - 86400 ==> at < e.at + TTL_RECENT)
      && e.build in Run(Start(clock), evs).closed
      && Run(Start(clock), evs).closed[e.build].key == key && Run(Start(clock), evs).closed[e.build].at == e.at
  {
    AnswersAlwaysFit(Start(clock), evs);
    var s := Run(Start(clock), evs);
    var Returned(key, answer) := s.threads[id];
    assert Fitting(s, key, answer);
  }

  // ---------------------------------------------------------------- the object in the system

  /** The event can happen; which entry a finished build evicts is the object's choice. */
  ghost predicate Possible(s: System, ev: Event) {
    if ev.Complete? then ev.id in s.threads && s.threads[ev.id].Building? && ev.now >= s.now else Enabled(s, ev)
  }

  /** What the object answered is what the call returned, if it returned. */
  ghost predicate AnswerIs(s: System, ev: Event, answer: Option<Answer>) {
    if ev.Timer? || ev.Clear? then answer.None?
    else
      && ev.id in s.threads
      && answer == if s.threads[ev.id].Returned? then Some(s.threads[ev.id].answer) else None
  }

  /** Lets the object take the step of an event: its tables and its answer are the system's. */
  method Perform(svc: Service, threads: map<nat, Thread>, made: Chan, ev: Event, ghost s: System)
      returns (done: Event, answer: Option<Answer>)
    requires Possible(s, ev) && svc.View() == s.t && threads == s.threads && made == s.made
    modifies svc
    ensures if ev.Complete? then done.Complete? && done == ev.(victim := done.victim) else done == ev
    ensures Enabled(s, done) && svc.View() == Apply(s, done).t
    ensures AnswerIs(Apply(s, done), ev, answer)
  {
    done, answer := ev, None;
    match ev {
      case Call(_, _, _, _, _) =>
      case Consider(id, now) =>
        var Ready(key, refresh, ask) := threads[id];
        var d := svc.Begin(key, ask.Lifetime(), refresh, now, made);
        if d.Cached? {
          answer := Some(FromCache(d.entry, d.denied, ask, now));
        }
      case Complete(id, ok, now, _) =>
        var Building(key, ch) := threads[id];
        var victim := svc.Complete(key, ch, ok, now);
        done, answer := Complete(id, ok, now, victim), Some(Answer.Built(Result(ch, ok)));
      case Wake(id) =>
        var found, r := svc.Lookup(threads[id].key);
        if found {
          answer := Some(Answer.Shared(r));
        }
      case Leave(id) =>
        answer := Some(Interrupted);
      case Timer(key) =>
        svc.Expire(key);
      case Clear =>
        svc.Invalidate();
    }
  }
}
