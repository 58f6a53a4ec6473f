/**
 Instants and durations are integers counting nanoseconds, as in Go's time package;
 the database keeps whole Unix seconds. Leases and reservations compare one against
 the other, so what truncation can do to a comparison is settled here once.
 */
module UnixTime {

  const SECOND := 1_000_000_000
  const MINUTE := 60 * SECOND
  const HOUR := 3600 * SECOND

  // Time.Unix(): the second containing the instant, also before 1970.
  function ToUnix(t: int): (s: int)
    ensures s * SECOND <= t < (s + 1) * SECOND
  {
    t / SECOND
  }

  // The first whole second at or after the instant.
  function ToUnixCeil(t: int): (s: int)
    ensures (s - 1) * SECOND < t <= s * SECOND
  {
    if t % SECOND == 0 then t / SECOND else t / SECOND + 1
  }

  function FromUnix(s: int): int {
    s * SECOND
  }

  lemma ToUnixMonotone(t: int, u: int)
    requires t <= u
    ensures ToUnix(t) <= ToUnix(u)
  {
  }

  // A row stamped at `stamp` drops below the staleness cutoff of `now` only when more
  // than the whole lifetime less one second has passed.
  lemma StaleMeansOld(stamp: int, createdAt: int, now: int, ttl: int)
    requires ToUnix(stamp) <= createdAt <= ToUnix(now - ttl)
    ensures stamp + ttl - SECOND < now
  {
  }

  // A deadline rounded up and compared with a truncated clock never fires early.
  lemma CeilDeadlineNotEarly(deadline: int, now: int)
    requires ToUnixCeil(deadline) <= ToUnix(now)
    ensures deadline <= now
  {
  }

  // A deadline rounded down fires less than one second early.
  lemma FloorDeadlineAlmostOnTime(deadline: int, now: int)
    requires ToUnix(deadline) <= ToUnix(now)
    ensures deadline - SECOND < now
  {
  }
}
