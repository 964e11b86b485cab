/** The cached period summary (backend/internal/usage/service.go: Get, Invalidate): the
    blocks under the mutex, as functions on the service's tables and as methods.

    A build is named by the channel its waiters block on; the summary it returns is
    represented by that name. */
module SingleFlight {
  import opened Basics

  // Instants are nanoseconds since the Unix epoch.
  const SECOND := 1_000_000_000
  const MINUTE := 60 * SECOND
  const TTL_RECENT := 15 * MINUTE
  const TTL_HISTORY := 360 * MINUTE
  const CACHE_MAX := 50
  const REFRESH_COOLDOWN := 10 * MINUTE
  const GLOBAL_COOLDOWN := 2 * MINUTE

  /** The zero instant, the first of January of the year 1, which `lastAny` starts at. */
  const ZERO_TIME := -62_135_596_800 * SECOND

  /** "url|start|end"; never empty. */
  type Key = k: string | k != "" witness "|"

  type Chan = nat

  datatype Entry = Entry(at: int, build: Chan)

  datatype Result = Result(build: Chan, ok: bool)

  datatype Tables = Tables(cache: map<Key, Entry>, inflight: map<Key, Chan>, results: map<Key, Result>, lastAny: int)

  /** What the block at the top of Get's loop decides. */
  datatype Decision =
    | Cached(entry: Entry, denied: bool, nextRefreshAt: int)
    | Join(ch: Chan)
    | Build

  /** The instant from which a forced refresh of a cached key is let through. */
  function OpensAt(at: int, lastAny: int): int {
    Max(at + REFRESH_COOLDOWN, lastAny + GLOBAL_COOLDOWN)
  }

  /** ... as the millisecond timestamp shown to the user. */
  function NextRefresh(at: int, lastAny: int): int {
    OpensAt(at, lastAny) / 1_000_000
  }

  function Ttl(endTs: int, nowSecs: int): int {
    if endTs >= nowSecs - 86400 then TTL_RECENT else TTL_HISTORY
  }

  function Denied(t: Tables, key: Key, refresh: bool, now: int): bool {
    refresh && key in t.cache && (now - t.cache[key].at < REFRESH_COOLDOWN || now - t.lastAny < GLOBAL_COOLDOWN)
  }

  function Decide(t: Tables, key: Key, ttl: int, refresh: bool, now: int): Decision {
    if key in t.cache && ((!refresh && now - t.cache[key].at < ttl) || Denied(t, key, refresh, now)) then
      Cached(t.cache[key], Denied(t, key, refresh, now), NextRefresh(t.cache[key].at, t.lastAny))
    else if key in t.inflight then Join(t.inflight[key])
    else Build
  }

  function Enter(t: Tables, key: Key, ttl: int, refresh: bool, now: int, made: Chan): Tables {
    match Decide(t, key, ttl, refresh, now)
    case Cached(_, _, _) => t
    case Join(_) => t.(lastAny := if refresh then now else t.lastAny)
    case Build => t.(lastAny := if refresh then now else t.lastAny, inflight := t.inflight[key := made])
  }

  /** The key whose entry is dropped when the cache has grown too large. */
  ghost predicate Oldest(cache: map<Key, Entry>, victim: Key) {
    victim in cache && forall k :: k in cache ==> cache[victim].at <= cache[k].at
  }

  /** When the new entry makes the cache too large, the victim is an oldest entry. */
  ghost predicate Evicts(cache: map<Key, Entry>, key: Key, ch: Chan, ok: bool, now: int, victim: Key) {
    var grown := cache[key := Entry(now, ch)];
    ok && |grown| > CACHE_MAX ==> Oldest(grown, victim)
  }

  /** `after` is `before` with this entry, and without an oldest one when that made more than 50. */
  ghost predicate CachesOne(before: map<Key, Entry>, after: map<Key, Entry>, key: Key, e: Entry) {
    (forall k :: k in after ==> k in before || k == key) &&
    forall k :: k in before || k == key ==>
      var entry := if k == key then e else before[k];
      if k in after then after[k] == entry
      else |before.Keys + {key}| > 50 && after.Keys == before.Keys + {key} - {k} && NoneOlder(entry, after)
  }

  ghost predicate NoneOlder(e: Entry, cache: map<Key, Entry>) {
    forall k :: k in cache ==> e.at <= cache[k].at
  }

  function Without<V>(m: map<Key, V>, key: Key): map<Key, V> {
    map k | k in m && k != key :: m[k]
  }

  function Finish(t: Tables, key: Key, ch: Chan, ok: bool, now: int, victim: Key): Tables {
    var grown := if ok then t.cache[key := Entry(now, ch)] else t.cache;
    t.(cache := if ok && |grown| > CACHE_MAX then Without(grown, victim) else grown,
       results := t.results[key := Result(ch, ok)],
       inflight := Without(t.inflight, key))
  }

  // ---------------------------------------------------------------- the object

  class Service {
    var cache: map<Key, Entry>
    var inflight: map<Key, Chan>
    var results: map<Key, Result>
    var lastAny: int

    ghost function View(): Tables
      reads this
    {
      Tables(cache, inflight, results, lastAny)
    }

    constructor ()
      ensures View() == Tables(map[], map[], map[], ZERO_TIME)
    {
      cache, inflight, results, lastAny := map[], map[], map[], ZERO_TIME;
    }

    method Invalidate()
      modifies `cache
      ensures cache == map[]
    {
      cache := map[];
    }

    /** The block at the top of the loop of Get; `made` is the channel a builder makes. */
    method Begin(key: Key, ttl: int, refresh: bool, now: int, made: Chan) returns (d: Decision)
      modifies `inflight, `lastAny
      ensures d == Decide(old(View()), key, ttl, refresh, now)
      ensures View() == Enter(old(View()), key, ttl, refresh, now, made)
    {
      if key in cache {
        var e := cache[key];
        var denied := false;
        if refresh {
          if now - e.at < REFRESH_COOLDOWN {
            denied := true;
          } else if now - lastAny < GLOBAL_COOLDOWN {
            denied := true;
          }
        }
        if (!refresh && now - e.at < ttl) || denied {
          return Cached(e, denied, NextRefresh(e.at, lastAny));
        }
      }
      if refresh {
        lastAny := now;
      }
      if key in inflight {
        return Join(inflight[key]);
      }
      inflight := inflight[key := made];
      return Build;
    }

    /** The scan for the oldest entry; an empty `oldK` means that none was seen yet. */
    method FindOldest() returns (victim: Key)
      requires cache != map[]
      ensures Oldest(cache, victim)
    {
      var rest := cache.Keys;
      var oldK: string, oldT := "", 0;
      while rest != {}
        invariant rest <= cache.Keys
        invariant oldK == "" ==> rest == cache.Keys
        invariant oldK != "" ==>
          oldK in cache && cache[oldK].at == oldT && forall k :: k in cache && k !in rest ==> oldT <= cache[k].at
        decreases rest
      {
        var k := Pick(rest);
        rest := rest - {k};
        if oldK == "" || cache[k].at < oldT {
          oldK, oldT := k, cache[k].at;
        }
      }
      victim := oldK;
    }

    /** The block after the build. */
    method Complete(key: Key, ch: Chan, ok: bool, now: int) returns (victim: Key)
      modifies `cache, `inflight, `results
      ensures View() == Finish(old(View()), key, ch, ok, now, victim)
      ensures Evicts(old(cache), key, ch, ok, now, victim)
      // A failed build leaves the cache alone; a successful one is cached, unless the cache had to
      // give up an oldest entry and it was this one.
      ensures !ok ==> cache == old(cache)
      ensures ok ==> CachesOne(old(cache), cache, key, Entry(now, ch))
      ensures key !in inflight && key in results && results[key] == Result(ch, ok)
    {
      victim := key;
      if ok {
        cache := cache[key := Entry(now, ch)];
        if |cache| > CACHE_MAX {
          victim := FindOldest();
          cache := Without(cache, victim);
        }
      }
      results := results[key := Result(ch, ok)];
      inflight := Without(inflight, key);
      if ok {
        FinishCaches(old(View()), key, ch, now, victim);
      }
    }

    method Lookup(key: Key) returns (found: bool, r: Result)
      ensures found == (key in results) && (found ==> r == results[key])
    {
      if key in results {
        return true, results[key];
      }
      return false, Result(0, false);
    }

    method Expire(key: Key)
      modifies `results
      ensures results == Without(old(results), key)
    {
      results := Without(results, key);
    }
  }

  // ---------------------------------------------------------------- refresh

  /** A forced refresh is refused exactly when its key is cached and the instant at which it
      opens has not come; a key that is not cached is never refused. */
  lemma RefusedExactlyBeforeOpening(t: Tables, key: Key, ttl: int, now: int)
    ensures var d := Decide(t, key, ttl, true, now);
      && (d.Cached? <==> key in t.cache && now < OpensAt(t.cache[key].at, t.lastAny))
      && (d.Cached? ==> d.denied && d.entry == t.cache[key])
  {
  }

  /** The millisecond shown with a cached answer, refused or not, brackets the instant at which
      a forced refresh of its key is let through: any later one at which nothing has happened
      in between shows on which side it lies. */
  lemma ShownInstantIsRight(t: Tables, key: Key, ttl: int, refresh: bool, now: int, later: int)
    requires Decide(t, key, ttl, refresh, now).Cached?
    ensures var shown := Decide(t, key, ttl, refresh, now).nextRefreshAt;
      && (later / 1_000_000 > shown ==> !Decide(t, key, ttl, true, later).Cached?)
      && (later / 1_000_000 < shown ==> Decide(t, key, ttl, true, later).Cached?)
  {
  }

  /** An ordinary request is answered from the cache exactly while the entry is younger than
      its lifetime. */
  lemma ServedWhileYoung(t: Tables, key: Key, ttl: int, now: int)
    ensures var d := Decide(t, key, ttl, false, now);
      && (d.Cached? <==> key in t.cache && now < t.cache[key].at + ttl)
      && (d.Cached? ==> !d.denied && d.entry == t.cache[key])
  {
  }

  lemma WithoutSize<V>(m: map<Key, V>, key: Key)
    ensures |Without(m, key)| == if key in m then |m| - 1 else |m|
  {
    assert Without(m, key).Keys == m.Keys - {key};
    assert |Without(m, key).Keys| == |m.Keys - {key}|;
  }

  /** A successful build enters the cache. */
  lemma FinishCaches(t: Tables, key: Key, ch: Chan, now: int, victim: Key)
    requires Evicts(t.cache, key, ch, true, now, victim)
    ensures CachesOne(t.cache, Finish(t, key, ch, true, now, victim).cache, key, Entry(now, ch))
  {
    var grown, after := t.cache[key := Entry(now, ch)], Finish(t, key, ch, true, now, victim).cache;
    assert grown.Keys == t.cache.Keys + {key} && |grown| == |grown.Keys|;
    if |grown| > CACHE_MAX {
      assert after.Keys == grown.Keys - {victim};
    }
  }

  /** Finishing a build keeps the cache at 50 entries, dropping nothing but an oldest entry,
      and never the new one unless it is itself among the oldest. */
  lemma FinishKeepsCacheSmall(t: Tables, key: Key, ch: Chan, ok: bool, now: int, victim: Key)
    requires |t.cache| <= CACHE_MAX && Evicts(t.cache, key, ch, ok, now, victim)
    ensures |Finish(t, key, ch, ok, now, victim).cache| <= CACHE_MAX
    ensures forall k :: k in t.cache && k != key && k !in Finish(t, key, ch, ok, now, victim).cache ==>
      k == victim && t.cache[k].at <= now && forall k' :: k' in t.cache && k' != key ==> t.cache[k].at <= t.cache[k'].at
  {
    var grown := t.cache[key := Entry(now, ch)];
    assert grown.Keys == t.cache.Keys + {key};
    assert |grown.Keys| <= |t.cache.Keys| + 1;
    assert |grown| == |grown.Keys| && |t.cache| == |t.cache.Keys|;
    WithoutSize(grown, victim);
  }
}
