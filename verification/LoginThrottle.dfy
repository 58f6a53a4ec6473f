/**
 How many failed logins an address can make when its handlers ask `blocked` first and record
 a failure only if it lets them. Some of them may be between the two at once; other addresses
 come and go in between as they like.
 */
module LoginThrottle {
  import opened LoginLimiters

  // One call on the limiter, blocked, fail or reset, or a handler that was let through and
  // ends without recording a failure.
  datatype Event =
    | Ask(key: Key, now: int)
    | Failure(key: Key, now: int)
    | Clear(key: Key)
    | GiveUp(key: Key)

  function AfterEvents(cfg: Config, events: seq<Event>): State {
    if events == [] then EMPTY
    else
      var s := AfterEvents(cfg, events[..|events| - 1]);
      match events[|events| - 1]
      case Ask(_, _) => s
      case Failure(key, now) => Fail(cfg, s, key, now)
      case Clear(key) => Reset(s, key)
      case GiveUp(_) => s
  }

  // The failures that were recorded for the key.
  function Recorded(events: seq<Event>, key: Key): seq<int> {
    if events == [] then []
    else
      var last := events[|events| - 1];
      Recorded(events[..|events| - 1], key) + if last.Failure? && last.key == key then [last.now] else []
  }

  predicate LetsIn(cfg: Config, before: seq<Event>, e: Event) {
    e.Ask? && Blocked(cfg, AfterEvents(cfg, before).buckets, e.key, e.now).None?
  }

  // How many of the key's asks were let through and have not ended.
  function Pending(cfg: Config, events: seq<Event>, key: Key): int {
    if events == [] then 0
    else
      var last, before := events[|events| - 1], events[..|events| - 1];
      Pending(cfg, before, key) +
      (if last.key != key then 0
       else if LetsIn(cfg, before, last) then 1
       else if last.Failure? || last.GiveUp? then -1
       else 0)
  }

  // The clock never goes back before `until` and no failure meets a flood; of the key itself
  // at most c asks are pending at once, a failure is recorded only by a pending one, and no
  // reset comes.
  predicate Disciplined(cfg: Config, events: seq<Event>, key: Key, c: nat, until: int) {
    if events == [] then true
    else
      var before := events[..|events| - 1];
      && (events[|events| - 1].key == key ==> 0 <= Pending(cfg, events, key) <= c)
      && match events[|events| - 1]
         case Ask(_, now) => now <= until && Disciplined(cfg, before, key, c, now)
         case Failure(_, now) =>
           now <= until && Disciplined(cfg, before, key, c, now) && !Floods(cfg, AfterEvents(cfg, before), now)
         case Clear(k) => k != key && Disciplined(cfg, before, key, c, until)
         case GiveUp(_) => Disciplined(cfg, before, key, c, until)
  }

  // How many times fall into [lo, hi).
  function Count(times: seq<int>, lo: int, hi: int): (n: nat)
    ensures n <= |times|
  {
    if times == [] then 0
    else Count(times[..|times| - 1], lo, hi) + if lo <= times[|times| - 1] < hi then 1 else 0
  }

  lemma {:induction false} CountConcat(a: seq<int>, b: seq<int>, lo: int, hi: int)
    ensures Count(a + b, lo, hi) == Count(a, lo, hi) + Count(b, lo, hi)
  {
    if b == [] {
      assert a + b == a;
    } else {
      assert (a + b)[..|a + b| - 1] == a + b[..|b| - 1];
      CountConcat(a, b[..|b| - 1], lo, hi);
    }
  }

  lemma {:induction false} CountNone(a: seq<int>, lo: int, hi: int)
    requires forall i | 0 <= i < |a| :: a[i] < lo || hi <= a[i]
    ensures Count(a, lo, hi) == 0
  {
    if a == [] {
    } else {
      CountNone(a[..|a| - 1], lo, hi);
    }
  }

  // The key's failures so far: those of earlier windows, and the current window's, which
  // opened with its first. No window holds more than `most`.
  datatype Windows = Windows(earlier: seq<int>, current: seq<int>)

  ghost predicate WindowsOk(cfg: Config, most: nat, w: Windows) {
    && (w.current == [] ==> w.earlier == [])
    && |w.current| <= most
    && (w.current != [] ==>
          var start := w.current[0];
          && (forall t | t in w.current :: start <= t < start + cfg.window)
          && (forall t | t in w.earlier :: t <= start)
          && (forall lo, hi | start - cfg.window < lo :: Count(w.earlier, lo, hi) <= most - 1)
          && (forall lo, hi | hi == lo + cfg.window :: Count(w.earlier, lo, hi) <= 2 * most - 1))
  }

  // The limiter remembers the current window as long as it lasts.
  ghost predicate Remembers(cfg: Config, s: State, key: Key, w: Windows, now: int) {
    && (w.current == [] ==> !Live(s.buckets, key, now))
    && (w.current != [] && now < w.current[0] + cfg.window ==>
          key in s.buckets && s.buckets[key] == Bucket(|w.current|, w.current[0] + cfg.window))
    && (w.current != [] && w.current[0] + cfg.window <= now ==> !Live(s.buckets, key, now))
  }

  lemma AnyIntervalBounded(cfg: Config, most: nat, w: Windows, lo: int)
    requires WindowsOk(cfg, most, w) && 1 <= most
    ensures Count(w.earlier + w.current, lo, lo + cfg.window) <= 2 * most - 1
  {
    CountConcat(w.earlier, w.current, lo, lo + cfg.window);
    assert Count(w.current, lo, lo + cfg.window) <= |w.current|;
    if w.current != [] && lo <= w.current[0] - cfg.window {
      assert forall i | 0 <= i < |w.current| :: w.current[i] in w.current;
      CountNone(w.current, lo, lo + cfg.window);
    }
  }

  // A window that opens after the current one has ended.
  lemma NewWindow(cfg: Config, most: nat, w: Windows, t: int)
    requires WindowsOk(cfg, most, w) && 1 <= most && 0 < cfg.window
    requires w.current != [] ==> w.current[0] + cfg.window <= t
    ensures WindowsOk(cfg, most, Windows(w.earlier + w.current, [t]))
  {
    var all := w.earlier + w.current;
    forall lo, hi | hi == lo + cfg.window ensures Count(all, lo, hi) <= 2 * most - 1 {
      AnyIntervalBounded(cfg, most, w, lo);
    }
    forall lo, hi | t - cfg.window < lo ensures Count(all, lo, hi) <= most - 1 {
      if w.current != [] {
        CountConcat(w.earlier, w.current, lo, hi);
        assert forall i | 0 <= i < |w.earlier| :: w.earlier[i] in w.earlier;
        CountNone(w.earlier, lo, hi);
        CountConcat(w.current[..1], w.current[1..], lo, hi);
        assert w.current == w.current[..1] + w.current[1..];
        CountNone(w.current[..1], lo, hi);
      }
    }
  }

  lemma SameWindow(cfg: Config, most: nat, w: Windows, t: int)
    requires WindowsOk(cfg, most, w) && w.current != [] && |w.current| < most
    requires w.current[0] <= t < w.current[0] + cfg.window
    ensures WindowsOk(cfg, most, Windows(w.earlier, w.current + [t]))
  {
  }

  // With c asks pending at once, a window takes the limit and what was let in before it was
  // reached.
  function Most(cfg: Config, c: nat): int {
    cfg.max - 1 + c
  }

  // What the history of the key comes down to at time `now`: a window that lasts and has
  // reached the limit leaves room for exactly the pending.
  ghost predicate Fits(cfg: Config, s: State, key: Key, w: Windows, c: nat, pending: int, now: int)
    requires 1 <= cfg.max
  {
    && WindowsOk(cfg, Most(cfg, c), w) && Remembers(cfg, s, key, w, now)
    && (forall t | t in w.current :: t <= now)
    && 0 <= pending <= c
    && (w.current != [] && now < w.current[0] + cfg.window && |w.current| >= cfg.max ==> |w.current| + pending <= Most(cfg, c))
  }

  lemma {:induction false} History(cfg: Config, events: seq<Event>, key: Key, c: nat, until: int) returns (w: Windows)
    requires 1 <= cfg.max && 0 < cfg.window && 1 <= c && Disciplined(cfg, events, key, c, until)
    ensures Recorded(events, key) == w.earlier + w.current
    ensures Fits(cfg, AfterEvents(cfg, events), key, w, c, Pending(cfg, events, key), until)
  {
    if events == [] {
      w := Windows([], []);
    } else {
      var before := events[..|events| - 1];
      var s, pending := AfterEvents(cfg, before), Pending(cfg, before, key);
      match events[|events| - 1]
      case Ask(k, now) =>
        w := History(cfg, before, key, c, now);
        Asked(cfg, s, key, w, c, pending, k, now, until);
      case Failure(k, now) =>
        w := History(cfg, before, key, c, now);
        if k == key {
          w := NextFailure(cfg, s, key, w, c, pending, now, until);
        } else {
          OtherFailure(cfg, s, key, w, c, pending, k, now, until);
        }
      case Clear(k) =>
        w := History(cfg, before, key, c, until);
        OtherCleared(cfg, s, key, w, c, pending, k, until);
      case GiveUp(k) =>
        w := History(cfg, before, key, c, until);
    }
  }

  // A reset of another address.
  lemma OtherCleared(cfg: Config, s: State, key: Key, w: Windows, c: nat, pending: int, k: Key, now: int)
    requires 1 <= cfg.max && Fits(cfg, s, key, w, c, pending, now) && k != key
    ensures Fits(cfg, Reset(s, k), key, w, c, pending, now)
  {
  }

  // An ask of this address or another.
  lemma Asked(cfg: Config, s: State, key: Key, w: Windows, c: nat, pending: int, k: Key, now: int, until: int)
    requires 1 <= cfg.max && Fits(cfg, s, key, w, c, pending, now) && now <= until
    requires k == key && Blocked(cfg, s.buckets, key, now).None? ==> pending + 1 <= c
    ensures Fits(cfg, s, key, w, c, pending + if k == key && Blocked(cfg, s.buckets, key, now).None? then 1 else 0, until)
  {
  }

  // A failure of another address.
  lemma OtherFailure(cfg: Config, s: State, key: Key, w: Windows, c: nat, pending: int, k: Key, now: int, until: int)
    requires 1 <= cfg.max && Fits(cfg, s, key, w, c, pending, now) && k != key && now <= until && !Floods(cfg, s, now)
    ensures Fits(cfg, Fail(cfg, s, k, now), key, w, c, pending, until)
  {
    SweepForgetsTheExpired(cfg, s, now);
  }

  // A failure of one that was let through: it joins the current window or opens the next.
  lemma NextFailure(cfg: Config, s: State, key: Key, w: Windows, c: nat, pending: int, now: int, until: int)
    returns (next: Windows)
    requires 1 <= cfg.max && 0 < cfg.window && 1 <= c && Fits(cfg, s, key, w, c, pending, now)
    requires 1 <= pending && now <= until && !Floods(cfg, s, now)
    ensures next.earlier + next.current == w.earlier + w.current + [now]
    ensures Fits(cfg, Fail(cfg, s, key, now), key, next, c, pending - 1, until)
  {
    SweepForgetsTheExpired(cfg, s, now);
    if w.current != [] && now < w.current[0] + cfg.window {
      assert w.current[0] in w.current;
      SameWindow(cfg, Most(cfg, c), w, now);
      next := Windows(w.earlier, w.current + [now]);
    } else {
      NewWindow(cfg, Most(cfg, c), w, now);
      next := Windows(w.earlier + w.current, [now]);
    }
  }

  // Whatever the other addresses do: with at most c attempts of an address under way at
  // once, no interval as long as the window holds more than 2 * (max - 1 + c) - 1 recorded
  // failures of it.
  lemma ConcurrentFailuresBounded(cfg: Config, events: seq<Event>, key: Key, c: nat, lo: int, until: int)
    requires 1 <= cfg.max && 0 < cfg.window && 1 <= c && Disciplined(cfg, events, key, c, until)
    ensures Count(Recorded(events, key), lo, lo + cfg.window) <= 2 * (cfg.max - 1 + c) - 1
  {
    var w := History(cfg, events, key, c, until);
    AnyIntervalBounded(cfg, Most(cfg, c), w, lo);
  }

  // One attempt after the other: at most twice the limit less one.
  lemma AtMostTwiceMaxLessOne(cfg: Config, events: seq<Event>, key: Key, lo: int, until: int)
    requires 1 <= cfg.max && 0 < cfg.window && Disciplined(cfg, events, key, 1, until)
    ensures Count(Recorded(events, key), lo, lo + cfg.window) <= 2 * cfg.max - 1
  {
    ConcurrentFailuresBounded(cfg, events, key, 1, lo, until);
  }
}
