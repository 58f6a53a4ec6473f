/**
 Uploads, episode deletes and failed-create rollbacks as handlers running concurrently over
 one database and one blob store. A step is one committed transaction, one blob-store
 effect, or the clock moving on; any number of handlers interleave at every step, and any
 of them may stop forever at any point.

 Environment assumptions, each visible as a guard below:
 - the clock never goes back, and a `now` stamp is read before its transaction commits;
 - CreateEpisode and ReserveBlob commit within the protect deadline or not at all;
 - a physical delete starts within `handoff` of its stamp, and takes effect within
   `deleteTimeout` of its start and before the delete call returns, or never;
 - a key determines its bytes, so the blob store is a set of keys.
 */
module BlobProtocol {
  import opened Options
  import opened BlobTables

  type HandlerId = nat

  datatype Handler =
      // handleEpisodeCreate
    | Uploading(key: Key, since: int)                 // protect deadline set, nothing reserved
    | Reserved(key: Key, since: int, token: Token)    // reservation committed, Put under way
    | Stored(key: Key, since: int, token: Token)      // Put returned, CreateEpisode next
    | Releasing(token: Token)                          // only the deferred release is left
    | CreateFailed(key: Key, token: Token)             // release first, then the orphan check
    | RollingBack(key: Key)                            // deleteOrphanBlob
      // deleteLeasedBlob, reached from an episode delete or a rollback
    | Leased(key: Key, token: Token, stamp: int)
    | Deleting(key: Key, token: Token, stamp: int, started: int)
    | DeleteDone(token: Token)                          // only the deferred lease release is left
    | Finished

  datatype System = System(db: Db, blobs: set<Key>, clock: int, handlers: map<HandlerId, Handler>)

  datatype Action =
    | Tick(to: int)
    | StrayPut(key: Key)                     // bytes of an upload that gave up land late
    | SetCover(channel: ChannelId, key: Key)
    | OpenUpload(h: HandlerId, key: Key)
    | Reserve(h: HandlerId, stamp: int)
    | Put(h: HandlerId)
    | PutFails(h: HandlerId)
    | CreateEpisode(h: HandlerId, id: EpisodeId, committed: bool, reportedOk: bool)
    | ReleaseReservation(h: HandlerId)
    | CheckOrphan(h: HandlerId, stamp: int)
    | DeleteRow(h: HandlerId, id: EpisodeId, stamp: int)
    | StartDelete(h: HandlerId)
    | DeleteBytes(h: HandlerId)
    | DeleteReturns(h: HandlerId)
    | ReleaseLease(h: HandlerId)
    | Stop(h: HandlerId)                     // client gone, panic or crash

  ghost predicate Init(s: System) {
    && s.handlers == map[]
    && (forall t | t in s.db.reservations :: t < s.db.nextReservation)
    && (forall t | t in s.db.leases :: t < s.db.nextLease)
    && (forall t, u | t in s.db.leases && u in s.db.leases && s.db.leases[t].key == s.db.leases[u].key :: t == u)
    && BytesPresent(s)
  }

  // What the protocol is for: no committed episode has lost its media.
  ghost predicate BytesPresent(s: System) {
    forall e | e in s.db.episodes && s.db.episodes[e] != "" :: s.db.episodes[e] in s.blobs
  }

  function Goto(s: System, h: HandlerId, next: Handler): System {
    s.(handlers := s.handlers[h := next])
  }

  function AfterLease(s: System, h: HandlerId, key: Key, stamp: int, r: (Db, Option<Token>)): System {
    Goto(s.(db := r.0), h, if r.1.Some? then Leased(key, r.1.value, stamp) else Finished)
  }

  ghost predicate Step(timing: Timing, s: System, a: Action, s': System) {
    match a
    case Tick(to) =>
      s.clock <= to && s' == s.(clock := to)
    case StrayPut(key) =>
      s' == s.(blobs := s.blobs + {key})
    case SetCover(channel, key) =>
      s' == s.(db := s.db.(covers := s.db.covers[channel := key]))
    case OpenUpload(h, key) =>
      h !in s.handlers && key != "" && s' == Goto(s, h, Uploading(key, s.clock))
    case DeleteRow(h, id, stamp) =>
      && h !in s.handlers && id in s.db.episodes && stamp <= s.clock
      && s' == AfterLease(s, h, s.db.episodes[id], stamp, BlobTables.DeleteEpisode(s.db, timing, id, stamp))
    case _ =>
      a.h in s.handlers && HandlerStep(timing, s, a, s.handlers[a.h], s')
  }

  // The steps of a handler that is already running and in state `me`.
  ghost predicate HandlerStep(timing: Timing, s: System, a: Action, me: Handler, s': System)
    requires !a.Tick? && !a.StrayPut? && !a.SetCover? && !a.OpenUpload? && !a.DeleteRow?
  {
    match a
    case Reserve(h, stamp) =>
      && me.Uploading? && me.since <= stamp <= s.clock <= me.since + timing.protectWindow
      && var r := ReserveBlob(s.db, timing, me.key, stamp);
         s' == if r.1.Some? then Goto(s.(db := r.0), h, Reserved(me.key, me.since, r.1.value)) else s
    case Put(h) =>
      me.Reserved? && s' == Goto(s.(blobs := s.blobs + {me.key}), h, Stored(me.key, me.since, me.token))
    case PutFails(h) =>
      me.Reserved? && s' == Goto(s, h, Releasing(me.token))
    case CreateEpisode(h, id, committed, reportedOk) =>
      && me.Stored? && id !in s.db.episodes
      && (committed ==> s.clock <= me.since + timing.protectWindow)
      && (reportedOk ==> committed)
      && var db := if committed then s.db.(episodes := s.db.episodes[id := me.key]) else s.db;
         s' == Goto(s.(db := db), h, if reportedOk then Releasing(me.token) else CreateFailed(me.key, me.token))
    case ReleaseReservation(h) =>
      && (me.Releasing? || me.CreateFailed?)
      && s' == Goto(s.(db := ReleaseBlob(s.db, me.token)), h, if me.CreateFailed? then RollingBack(me.key) else Finished)
    case CheckOrphan(h, stamp) =>
      && me.RollingBack? && stamp <= s.clock
      && s' == AfterLease(s, h, me.key, stamp, BlobOrphaned(s.db, timing, me.key, stamp))
    case StartDelete(h) =>
      && me.Leased? && s.clock <= me.stamp + timing.handoff
      && s' == Goto(s, h, Deleting(me.key, me.token, me.stamp, s.clock))
    case DeleteBytes(h) =>
      me.Deleting? && s.clock <= me.started + timing.deleteTimeout && s' == s.(blobs := s.blobs - {me.key})
    case DeleteReturns(h) =>
      me.Deleting? && s' == Goto(s, h, DeleteDone(me.token))
    case ReleaseLease(h) =>
      me.DeleteDone? && s' == Goto(s.(db := ReleaseDeleteLease(s.db, me.token)), h, Finished)
    case Stop(h) =>
      s' == Goto(s, h, Finished)
  }

  datatype Run = Run(states: seq<System>, actions: seq<Action>)

  ghost predicate IsRun(timing: Timing, r: Run) {
    && |r.states| == |r.actions| + 1
    && Init(r.states[0])
    && forall i | 0 <= i < |r.actions| :: Step(timing, r.states[i], r.actions[i], r.states[i + 1])
  }

  function Last(r: Run): System
    requires r.states != []
  {
    r.states[|r.states| - 1]
  }

  lemma Extend(timing: Timing, r: Run, a: Action, s': System) returns (longer: Run)
    requires IsRun(timing, r) && Step(timing, Last(r), a, s')
    ensures IsRun(timing, longer) && Last(longer) == s' && longer == Run(r.states + [s'], r.actions + [a])
  {
    longer := Run(r.states + [s'], r.actions + [a]);
  }

  // ---------------------------------------------------------------- who is in flight

  // An upload between its reservation and its episode, still allowed to commit.
  predicate UploadLive(timing: Timing, clock: int, me: Handler) {
    (me.Reserved? || me.Stored?) && clock <= me.since + timing.protectWindow
  }

  // A physical delete that has not taken effect for the last time: leased or under way, and
  // still within the bounds that let it start and run.
  predicate DeleteLive(timing: Timing, clock: int, me: Handler) {
    || (me.Leased? && clock <= me.stamp + timing.handoff + timing.deleteTimeout)
    || (me.Deleting? && clock <= me.started + timing.deleteTimeout)
  }

  predicate HoldsReservation(me: Handler) {
    me.Reserved? || me.Stored? || me.Releasing? || me.CreateFailed?
  }

  predicate HoldsLease(me: Handler) {
    me.Leased? || me.Deleting? || me.DeleteDone?
  }
}
