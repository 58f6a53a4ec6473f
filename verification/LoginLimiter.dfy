/**
 The evicting fixed-window login limiter (server/ratelimit.go): transitions on values, the
 object that performs them in place, and the limiter that never forgets as its reference.
 */
module LoginLimiters {
  import opened Collections
  import opened Options

  type Key = string

  datatype Bucket = Bucket(count: nat, resetAt: int)

  type Buckets = map<Key, Bucket>

  datatype Config = Config(max: int, window: int, maxEntries: int)

  // lastSweep is None until the first sweep: Go's zero time is longer ago than any window.
  datatype State = State(buckets: Buckets, lastSweep: Option<int>)

  predicate Live(buckets: Buckets, key: Key, now: int) {
    key in buckets && now < buckets[key].resetAt
  }

  // Some(d): throttled for another d.
  function Blocked(cfg: Config, buckets: Buckets, key: Key, now: int): Option<int> {
    if !Live(buckets, key, now) || buckets[key].count < cfg.max then None
    else Some(buckets[key].resetAt - now)
  }

  function DropExpired(buckets: Buckets, now: int): Buckets {
    map k | k in buckets && now < buckets[k].resetAt :: buckets[k]
  }

  function Sweep(cfg: Config, s: State, now: int): State {
    if |s.buckets| < cfg.maxEntries && s.lastSweep.Some? && now - s.lastSweep.value < cfg.window then s
    else
      var kept := DropExpired(s.buckets, now);
      State(if |kept| >= cfg.maxEntries then map[] else kept, Some(now))
  }

  // One more failure in the current window, or the first of a new one.
  function Record(cfg: Config, buckets: Buckets, key: Key, now: int): Buckets {
    if Live(buckets, key, now) then buckets[key := buckets[key].(count := buckets[key].count + 1)]
    else buckets[key := Bucket(1, now + cfg.window)]
  }

  function Fail(cfg: Config, s: State, key: Key, now: int): State {
    var swept := Sweep(cfg, s, now);
    swept.(buckets := Record(cfg, swept.buckets, key, now))
  }

  function Reset(s: State, key: Key): State {
    s.(buckets := s.buckets - {key})
  }

  const EMPTY := State(map[], None)

  // ---------------------------------------------------------------- bounded memory

  lemma SweepMakesRoom(cfg: Config, s: State, now: int)
    requires 1 <= cfg.maxEntries
    ensures |Sweep(cfg, s, now).buckets| < cfg.maxEntries
  {
  }

  lemma RecordAddsOne(cfg: Config, buckets: Buckets, key: Key, now: int)
    ensures |Record(cfg, buckets, key, now)| <= |buckets| + 1
  {
    var recorded := Record(cfg, buckets, key, now);
    assert recorded.Keys == buckets.Keys + {key};
    SubsetSize(recorded.Keys, buckets.Keys + {key});
  }

  // No operation takes the map past its cap, floods included.
  lemma CapHolds(cfg: Config, s: State, key: Key, now: int)
    requires 1 <= cfg.maxEntries && |s.buckets| <= cfg.maxEntries
    ensures |Fail(cfg, s, key, now).buckets| <= cfg.maxEntries
    ensures |Reset(s, key).buckets| <= cfg.maxEntries
  {
    SweepMakesRoom(cfg, s, now);
    RecordAddsOne(cfg, Sweep(cfg, s, now).buckets, key, now);
    SubsetSize(Reset(s, key).buckets.Keys, s.buckets.Keys);
  }

  // ---------------------------------------------------------------- refinement

  datatype Op =
    | OpFail(key: Key, now: int)
    | OpReset(key: Key)

  function Apply(cfg: Config, s: State, op: Op): State {
    match op
    case OpFail(key, now) => Fail(cfg, s, key, now)
    case OpReset(key) => Reset(s, key)
  }

  // The reference: no sweep, nothing ever forgotten.
  function ApplyRef(cfg: Config, buckets: Buckets, op: Op): Buckets {
    match op
    case OpFail(key, now) => Record(cfg, buckets, key, now)
    case OpReset(key) => buckets - {key}
  }

  function After(cfg: Config, ops: seq<Op>): State {
    if ops == [] then EMPTY else Apply(cfg, After(cfg, ops[..|ops| - 1]), ops[|ops| - 1])
  }

  function AfterRef(cfg: Config, ops: seq<Op>): Buckets {
    if ops == [] then map[] else ApplyRef(cfg, AfterRef(cfg, ops[..|ops| - 1]), ops[|ops| - 1])
  }

  // More live windows than the cap: the sweep forgives them all.
  predicate Floods(cfg: Config, s: State, now: int) {
    |DropExpired(s.buckets, now)| >= cfg.maxEntries
  }

  // The clock never goes back before `until`, and no failure meets a flood.
  predicate Calm(cfg: Config, ops: seq<Op>, until: int) {
    if ops == [] then true
    else
      var op, before := ops[|ops| - 1], ops[..|ops| - 1];
      if op.OpReset? then Calm(cfg, before, until)
      else op.now <= until && Calm(cfg, before, op.now) && !Floods(cfg, After(cfg, before), op.now)
  }

  // The map never exceeds its cap, whatever is recorded or reset, floods included.
  lemma {:induction false} CapAlwaysHolds(cfg: Config, ops: seq<Op>)
    requires 1 <= cfg.maxEntries
    ensures |After(cfg, ops).buckets| <= cfg.maxEntries
  {
    if ops == [] {
    } else {
      var before, op := ops[..|ops| - 1], ops[|ops| - 1];
      CapAlwaysHolds(cfg, before);
      CapHolds(cfg, After(cfg, before), op.key, if op.OpFail? then op.now else 0);
    }
  }

  // The same windows are live in both from `now` on.
  ghost predicate Agree(a: Buckets, b: Buckets, now: int) {
    forall k | Live(a, k, now) || Live(b, k, now) :: k in a && k in b && a[k] == b[k]
  }

  lemma SweepForgetsTheExpired(cfg: Config, s: State, now: int)
    requires !Floods(cfg, s, now)
    ensures Agree(Sweep(cfg, s, now).buckets, s.buckets, now)
  {
  }

  lemma {:induction false} EvictionIsInvisible(cfg: Config, ops: seq<Op>, until: int)
    requires Calm(cfg, ops, until)
    ensures Agree(After(cfg, ops).buckets, AfterRef(cfg, ops), until)
  {
    if ops == [] {
    } else {
      var op, before := ops[|ops| - 1], ops[..|ops| - 1];
      if op.OpReset? {
        EvictionIsInvisible(cfg, before, until);
      } else {
        EvictionIsInvisible(cfg, before, op.now);
        var s, ref := After(cfg, before), AfterRef(cfg, before);
        SweepForgetsTheExpired(cfg, s, op.now);
        var swept := Sweep(cfg, s, op.now).buckets;
        assert Agree(swept, ref, op.now);
        RecordAgrees(cfg, swept, ref, op.key, op.now, until);
      }
    }
  }

  lemma RecordAgrees(cfg: Config, a: Buckets, b: Buckets, key: Key, now: int, until: int)
    requires Agree(a, b, now) && now <= until
    ensures Agree(Record(cfg, a, key, now), Record(cfg, b, key, now), until)
  {
    assert Live(a, key, now) <==> Live(b, key, now);
  }

  // Outside floods, blocked answers exactly as if nothing had ever been evicted.
  lemma BlockedAsIfNeverEvicted(cfg: Config, ops: seq<Op>, key: Key, now: int)
    requires Calm(cfg, ops, now)
    ensures Blocked(cfg, After(cfg, ops).buckets, key, now) == Blocked(cfg, AfterRef(cfg, ops), key, now)
  {
    EvictionIsInvisible(cfg, ops, now);
  }
}
