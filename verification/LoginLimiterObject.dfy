/** The limiter object itself, its mutex standing for one call at a time. */
module LoginLimiterObject {
  import opened Options
  import opened LoginLimiters

  class LoginLimiter {
    const cfg: Config
    var buckets: Buckets
    var lastSweep: Option<int>

    ghost function Contents(): State
      reads this
    {
      State(buckets, lastSweep)
    }

    // A sweep is due: the map is full, or the last one is a window ago.
    predicate Sweeps(b: Buckets, last: Option<int>, now: int) {
      |b| >= cfg.maxEntries || last == None || now - last.value >= cfg.window
    }

    // The sweep finds the map full even of live windows and drops them all.
    predicate Forgives(b: Buckets, last: Option<int>, now: int) {
      Sweeps(b, last, now) && |map k | k in b && now < b[k].resetAt :: b[k]| >= cfg.maxEntries
    }

    predicate Survives(b: Buckets, last: Option<int>, now: int, k: Key) {
      k in b && (Sweeps(b, last, now) ==> now < b[k].resetAt && !Forgives(b, last, now))
    }

    constructor (max: int, window: int, maxEntries: int)
      ensures Contents() == EMPTY && cfg == Config(max, window, maxEntries)
    {
      cfg := Config(max, window, maxEntries);
      buckets, lastSweep := map[], None;
    }

    method Blocked(key: Key, now: int) returns (retryAfter: int, blocked: bool)
      ensures (if blocked then Some(retryAfter) else None) == LoginLimiters.Blocked(cfg, buckets, key, now)
      ensures blocked <==> key in buckets && now < buckets[key].resetAt && buckets[key].count >= cfg.max
      ensures retryAfter == if blocked then buckets[key].resetAt - now else 0
    {
      if key !in buckets || !(now < buckets[key].resetAt) {
        return 0, false;
      }
      if buckets[key].count < cfg.max {
        return 0, false;
      }
      return buckets[key].resetAt - now, true;
    }

    method Fail(key: Key, now: int)
      modifies this
      ensures Contents() == LoginLimiters.Fail(cfg, old(Contents()), key, now)
      ensures key in buckets
      ensures buckets[key] ==
        if key in old(buckets) && now < old(buckets)[key].resetAt && !Forgives(old(buckets), old(lastSweep), now)
        then Bucket(old(buckets)[key].count + 1, old(buckets)[key].resetAt)
        else Bucket(1, now + cfg.window)
      ensures forall k | k != key :: if Survives(old(buckets), old(lastSweep), now, k) then k in buckets && buckets[k] == old(buckets)[k] else k !in buckets
    {
      SweepLocked(now);
      if key !in buckets || !(now < buckets[key].resetAt) {
        buckets := buckets[key := Bucket(1, now + cfg.window)];
        return;
      }
      buckets := buckets[key := buckets[key].(count := buckets[key].count + 1)];
    }

    method Reset(key: Key)
      modifies this
      ensures Contents() == LoginLimiters.Reset(old(Contents()), key)
      ensures buckets == old(buckets) - {key} && lastSweep == old(lastSweep)
    {
      buckets := buckets - {key};
    }

    method SweepLocked(now: int)
      modifies this
      ensures Contents() == Sweep(cfg, old(Contents()), now)
      ensures forall k :: if Survives(old(buckets), old(lastSweep), now, k) then k in buckets && buckets[k] == old(buckets)[k] else k !in buckets
      ensures lastSweep == if Sweeps(old(buckets), old(lastSweep), now) then Some(now) else old(lastSweep)
    {
      var over := |buckets| >= cfg.maxEntries;
      if !over && lastSweep.Some? && now - lastSweep.value < cfg.window {
        return;
      }
      lastSweep := Some(now);
      ghost var before := buckets;
      var left := buckets.Keys;
      while left != {}
        invariant left <= before.Keys
        invariant forall k | k in left :: k in buckets
        invariant forall k :: k in buckets <==> k in before && (k in left || now < before[k].resetAt)
        invariant forall k | k in buckets :: buckets[k] == before[k]
        invariant lastSweep == Some(now)
        decreases left
      {
        var k :| k in left;
        if !(now < buckets[k].resetAt) {
          buckets := buckets - {k};
        }
        left := left - {k};
      }
      assert buckets == DropExpired(before, now);
      if |buckets| >= cfg.maxEntries {
        buckets := map[];
      }
    }
  }
}
