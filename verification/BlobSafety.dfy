/**
 The inductive invariant of the blob protocol and what it gives in every reachable state.
 The invariant speaks of one handler at a time and of two at a time, so each step is proved
 for the handler that moves and one arbitrary other.
 */
module BlobSafety {
  import opened UnixTime
  import opened BlobTables
  import opened BlobProtocol

  // Each enforced bound leaves at least one second before the row that covers it can be
  // taken for stale, because stamps are truncated to whole seconds.
  predicate Sound(timing: Timing) {
    && timing.handoff + timing.deleteTimeout + SECOND <= timing.leaseTTL
    && timing.protectWindow + SECOND <= timing.reservationTTL
    && 0 <= timing.deleteTimeout
  }

  // ---------------------------------------------------------------- the invariant

  ghost predicate TablesOk(db: Db) {
    && (forall t | t in db.reservations :: t < db.nextReservation)
    && (forall t | t in db.leases :: t < db.nextLease)
    && (forall t, u | t in db.leases && u in db.leases && db.leases[t].key == db.leases[u].key :: t == u)
  }

  ghost predicate ReservationPresent(db: Db, me: Handler)
    requires me.Reserved? || me.Stored?
  {
    && me.token in db.reservations
    && db.reservations[me.token].key == me.key
    && db.reservations[me.token].createdAt >= ToUnix(me.since)
  }

  ghost predicate LeasePresent(db: Db, me: Handler)
    requires me.Leased? || me.Deleting?
  {
    me.token in db.leases && db.leases[me.token] == Mark(me.key, ToUnix(me.stamp))
  }

  ghost predicate Unreferenced(db: Db, key: Key) {
    forall e | e in db.episodes :: db.episodes[e] != key
  }

  predicate TokenIssued(db: Db, me: Handler) {
    && (HoldsReservation(me) ==> me.token < db.nextReservation)
    && (HoldsLease(me) ==> me.token < db.nextLease)
  }

  predicate TokensApart(a: Handler, b: Handler) {
    && (HoldsReservation(a) && HoldsReservation(b) ==> a.token != b.token)
    && (HoldsLease(a) && HoldsLease(b) ==> a.token != b.token)
  }

  ghost predicate HandlerOk(timing: Timing, s: System, me: Handler) {
    && TokenIssued(s.db, me)
    && (me.Reserved? || me.Stored? ==> ReservationPresent(s.db, me))
    && (me.Stored? && UploadLive(timing, s.clock, me) ==> me.key in s.blobs)
    && (me.Deleting? ==> me.started <= me.stamp + timing.handoff)
    && (DeleteLive(timing, s.clock, me) ==> LeasePresent(s.db, me) && Unreferenced(s.db, me.key))
  }

  // No shared token, and never an upload and a delete of one key in flight together.
  ghost predicate PairOk(timing: Timing, clock: int, a: Handler, b: Handler) {
    && TokensApart(a, b)
    && (UploadLive(timing, clock, a) && DeleteLive(timing, clock, b) ==> a.key != b.key)
    && (DeleteLive(timing, clock, a) && UploadLive(timing, clock, b) ==> a.key != b.key)
  }

  ghost predicate Inv(timing: Timing, s: System) {
    && TablesOk(s.db)
    && BytesPresent(s)
    && (forall h | h in s.handlers :: HandlerOk(timing, s, s.handlers[h]))
    && (forall g, h | g in s.handlers && h in s.handlers && g != h :: PairOk(timing, s.clock, s.handlers[g], s.handlers[h]))
  }

  // The invariant as seen by one handler and another.
  ghost predicate Two(timing: Timing, s: System, me: Handler, other: Handler) {
    && TablesOk(s.db)
    && BytesPresent(s)
    && HandlerOk(timing, s, me)
    && HandlerOk(timing, s, other)
    && PairOk(timing, s.clock, me, other)
  }

  function At(s: System, h: HandlerId): Handler {
    if h in s.handlers then s.handlers[h] else Finished
  }

  lemma Lift(timing: Timing, s: System, h: HandlerId, s': System)
    requires Inv(timing, s) && s'.clock == s.clock
    requires h in s'.handlers && s'.handlers == s.handlers[h := s'.handlers[h]]
    requires forall other | Two(timing, s, At(s, h), other) :: Two(timing, s', s'.handlers[h], other)
    ensures Inv(timing, s')
  {
    assert Two(timing, s, At(s, h), Finished);
    forall g | g in s.handlers && g != h ensures Two(timing, s', s'.handlers[h], s.handlers[g]) {
      assert Two(timing, s, At(s, h), s.handlers[g]);
    }
  }

  // ---------------------------------------------------------------- the two timing arguments

  // While an upload may still commit, its reservation counts in every orphan check.
  lemma LiveReservationCounts(timing: Timing, s: System, me: Handler, now: int)
    requires Sound(timing) && HandlerOk(timing, s, me) && UploadLive(timing, s.clock, me) && now <= s.clock
    ensures s.db.reservations[me.token].createdAt > ToUnix(now - timing.reservationTTL)
  {
    var created := s.db.reservations[me.token].createdAt;
    var since := me.since;
    if created <= ToUnix(now - timing.reservationTTL) {
      StaleMeansOld(since, created, now, timing.reservationTTL);
    }
  }

  // While a delete may still take effect, its lease turns away every reserve and every
  // other delete of the key.
  lemma LiveLeaseBlocks(timing: Timing, s: System, me: Handler, now: int)
    requires Sound(timing) && HandlerOk(timing, s, me) && DeleteLive(timing, s.clock, me) && now <= s.clock
    ensures LeaseActive(s.db, timing, me.key, now)
  {
    var stamp := me.stamp;
    assert s.db.leases[me.token].createdAt == ToUnix(stamp);
    if ToUnix(stamp) <= ToUnix(now - timing.leaseTTL) {
      StaleMeansOld(stamp, ToUnix(stamp), now, timing.leaseTTL);
    }
  }

  // ---------------------------------------------------------------- every step keeps it

  lemma TickKeeps(timing: Timing, s: System, to: int)
    requires Inv(timing, s) && s.clock <= to
    ensures Inv(timing, s.(clock := to))
  {
    var s' := s.(clock := to);
    forall h | h in s.handlers ensures HandlerOk(timing, s', s.handlers[h]) {
      assert HandlerOk(timing, s, s.handlers[h]);
    }
    forall g, h | g in s.handlers && h in s.handlers && g != h
      ensures PairOk(timing, to, s.handlers[g], s.handlers[h])
    {
      assert PairOk(timing, s.clock, s.handlers[g], s.handlers[h]);
    }
  }

  lemma StrayPutKeeps(timing: Timing, s: System, key: Key)
    requires Inv(timing, s)
    ensures Inv(timing, s.(blobs := s.blobs + {key}))
  {
    var s' := s.(blobs := s.blobs + {key});
    forall h | h in s.handlers ensures HandlerOk(timing, s', s.handlers[h]) {
      assert HandlerOk(timing, s, s.handlers[h]);
    }
  }

  lemma SetCoverKeeps(timing: Timing, s: System, covers: map<ChannelId, Key>)
    requires Inv(timing, s)
    ensures Inv(timing, s.(db := s.db.(covers := covers)))
  {
    var s' := s.(db := s.db.(covers := covers));
    forall h | h in s.handlers ensures HandlerOk(timing, s', s.handlers[h]) {
      assert HandlerOk(timing, s, s.handlers[h]);
    }
  }

  // A handler that only gives something up: fewer claims, the same tables.
  lemma RetreatKeeps(timing: Timing, s: System, h: HandlerId, next: Handler)
    requires Inv(timing, s)
    requires next.Finished? || next.Uploading? || next.RollingBack?
      || (next.Releasing? && HoldsReservation(At(s, h)) && next.token == At(s, h).token)
      || (next.CreateFailed? && HoldsReservation(At(s, h)) && next.token == At(s, h).token)
      || (next.DeleteDone? && HoldsLease(At(s, h)) && next.token == At(s, h).token)
    ensures Inv(timing, Goto(s, h, next))
  {
    Lift(timing, s, h, Goto(s, h, next));
  }

  lemma ReserveKeeps(timing: Timing, s: System, h: HandlerId, stamp: int)
    requires Sound(timing) && Inv(timing, s) && At(s, h).Uploading?
    requires At(s, h).since <= stamp <= s.clock
    requires !LeaseActive(s.db, timing, At(s, h).key, stamp)
    ensures var r := ReserveBlob(s.db, timing, At(s, h).key, stamp);
      Inv(timing, Goto(s.(db := r.0), h, Reserved(At(s, h).key, At(s, h).since, s.db.nextReservation)))
  {
    var me := At(s, h);
    var s' := Goto(s.(db := ReserveBlob(s.db, timing, me.key, stamp).0), h, Reserved(me.key, me.since, s.db.nextReservation));
    ToUnixMonotone(me.since, stamp);
    forall other | Two(timing, s, me, other) ensures Two(timing, s', s'.handlers[h], other) {
      if DeleteLive(timing, s.clock, other) {
        LiveLeaseBlocks(timing, s, other, stamp);
      }
    }
    Lift(timing, s, h, s');
  }

  lemma PutKeeps(timing: Timing, s: System, h: HandlerId)
    requires Inv(timing, s) && At(s, h).Reserved?
    ensures var me := At(s, h);
      Inv(timing, Goto(s.(blobs := s.blobs + {me.key}), h, Stored(me.key, me.since, me.token)))
  {
    var me := At(s, h);
    Lift(timing, s, h, Goto(s.(blobs := s.blobs + {me.key}), h, Stored(me.key, me.since, me.token)));
  }

  lemma CreateKeeps(timing: Timing, s: System, h: HandlerId, id: EpisodeId)
    requires Inv(timing, s) && At(s, h).Stored? && UploadLive(timing, s.clock, At(s, h)) && id !in s.db.episodes
    ensures Inv(timing, s.(db := s.db.(episodes := s.db.episodes[id := At(s, h).key])))
  {
    var me := At(s, h);
    var s' := s.(db := s.db.(episodes := s.db.episodes[id := me.key]));
    forall other | Two(timing, s, me, other) ensures Two(timing, s', me, other) {
      if DeleteLive(timing, s.clock, other) {
        assert Unreferenced(s'.db, other.key);
      }
    }
    assert s'.handlers == s.handlers[h := s'.handlers[h]];
    Lift(timing, s, h, s');
  }

  lemma ReleaseReservationKeeps(timing: Timing, s: System, h: HandlerId, next: Handler)
    requires Inv(timing, s) && (At(s, h).Releasing? || At(s, h).CreateFailed?)
    requires next.Finished? || next.RollingBack?
    ensures Inv(timing, Goto(s.(db := ReleaseBlob(s.db, At(s, h).token)), h, next))
  {
    Lift(timing, s, h, Goto(s.(db := ReleaseBlob(s.db, At(s, h).token)), h, next));
  }

  // Taking the delete lease, for the episode delete and for the rollback.
  lemma OrphanKeeps(timing: Timing, s: System, h: HandlerId, key: Key, stamp: int)
    requires Sound(timing) && Inv(timing, s) && stamp <= s.clock
    requires At(s, h).Finished? || At(s, h).RollingBack?
    ensures Inv(timing, AfterLease(s, h, key, stamp, BlobOrphaned(s.db, timing, key, stamp)))
  {
    var r := BlobOrphaned(s.db, timing, key, stamp);
    var s' := AfterLease(s, h, key, stamp, r);
    if r.1.None? {
      RetreatKeeps(timing, s, h, Finished);
    } else {
      forall other | Two(timing, s, At(s, h), other) ensures Two(timing, s', s'.handlers[h], other) {
        if UploadLive(timing, s.clock, other) {
          LiveReservationCounts(timing, s, other, stamp);
        }
        if DeleteLive(timing, s.clock, other) {
          LiveLeaseBlocks(timing, s, other, stamp);
        }
      }
      Lift(timing, s, h, s');
    }
  }

  lemma DropRowKeeps(timing: Timing, s: System, id: EpisodeId)
    requires Inv(timing, s)
    ensures Inv(timing, s.(db := s.db.(episodes := s.db.episodes - {id})))
  {
    var s' := s.(db := s.db.(episodes := s.db.episodes - {id}));
    forall h | h in s.handlers ensures HandlerOk(timing, s', s.handlers[h]) {
      assert HandlerOk(timing, s, s.handlers[h]);
    }
  }

  lemma StartDeleteKeeps(timing: Timing, s: System, h: HandlerId)
    requires Inv(timing, s) && At(s, h).Leased? && s.clock <= At(s, h).stamp + timing.handoff
    ensures var me := At(s, h); Inv(timing, Goto(s, h, Deleting(me.key, me.token, me.stamp, s.clock)))
  {
    var me := At(s, h);
    if 0 <= timing.deleteTimeout {
      assert DeleteLive(timing, s.clock, me);
    }
    Lift(timing, s, h, Goto(s, h, Deleting(me.key, me.token, me.stamp, s.clock)));
  }

  lemma DeleteBytesKeeps(timing: Timing, s: System, h: HandlerId)
    requires Inv(timing, s) && At(s, h).Deleting? && DeleteLive(timing, s.clock, At(s, h))
    ensures Inv(timing, s.(blobs := s.blobs - {At(s, h).key}))
  {
    var s' := s.(blobs := s.blobs - {At(s, h).key});
    assert s'.handlers == s.handlers[h := s'.handlers[h]];
    Lift(timing, s, h, s');
  }

  lemma ReleaseLeaseKeeps(timing: Timing, s: System, h: HandlerId)
    requires Inv(timing, s) && At(s, h).DeleteDone?
    ensures Inv(timing, Goto(s.(db := ReleaseDeleteLease(s.db, At(s, h).token)), h, Finished))
  {
    Lift(timing, s, h, Goto(s.(db := ReleaseDeleteLease(s.db, At(s, h).token)), h, Finished));
  }

  lemma StepKeepsInv(timing: Timing, s: System, a: Action, s': System)
    requires Sound(timing) && Inv(timing, s) && Step(timing, s, a, s')
    ensures Inv(timing, s')
  {
    match a
    case Tick(to) => TickKeeps(timing, s, to);
    case StrayPut(key) => StrayPutKeeps(timing, s, key);
    case SetCover(channel, key) => SetCoverKeeps(timing, s, s.db.covers[channel := key]);
    case OpenUpload(h, key) => RetreatKeeps(timing, s, h, Uploading(key, s.clock));
    case Reserve(h, stamp) =>
      if !LeaseActive(s.db, timing, At(s, h).key, stamp) {
        ReserveKeeps(timing, s, h, stamp);
      }
    case Put(h) => PutKeeps(timing, s, h);
    case PutFails(h) => RetreatKeeps(timing, s, h, Releasing(At(s, h).token));
    case CreateEpisode(h, id, committed, reportedOk) =>
      var me := At(s, h);
      var mid := s;
      if committed {
        CreateKeeps(timing, s, h, id);
        mid := s.(db := s.db.(episodes := s.db.episodes[id := me.key]));
      }
      RetreatKeeps(timing, mid, h, if reportedOk then Releasing(me.token) else CreateFailed(me.key, me.token));
    case ReleaseReservation(h) => ReleaseReservationKeeps(timing, s, h, s'.handlers[h]);
    case CheckOrphan(h, stamp) => OrphanKeeps(timing, s, h, At(s, h).key, stamp);
    case DeleteRow(h, id, stamp) =>
      DropRowKeeps(timing, s, id);
      OrphanKeeps(timing, s.(db := s.db.(episodes := s.db.episodes - {id})), h, s.db.episodes[id], stamp);
    case StartDelete(h) => StartDeleteKeeps(timing, s, h);
    case DeleteBytes(h) => DeleteBytesKeeps(timing, s, h);
    case DeleteReturns(h) => RetreatKeeps(timing, s, h, DeleteDone(At(s, h).token));
    case ReleaseLease(h) => ReleaseLeaseKeeps(timing, s, h);
    case Stop(h) => RetreatKeeps(timing, s, h, Finished);
  }

  // ---------------------------------------------------------------- every reachable state

  lemma {:induction false} RunKeepsInv(timing: Timing, r: Run, i: nat)
    requires Sound(timing) && IsRun(timing, r) && i < |r.states|
    ensures Inv(timing, r.states[i])
  {
    if i == 0 {
    } else {
      RunKeepsInv(timing, r, i - 1);
      StepKeepsInv(timing, r.states[i - 1], r.actions[i - 1], r.states[i]);
    }
  }

  // No run loses the media of a committed episode.
  lemma BlobsNeverLost(timing: Timing, r: Run)
    requires Sound(timing) && IsRun(timing, r)
    ensures forall i | 0 <= i < |r.states| :: BytesPresent(r.states[i])
  {
    forall i | 0 <= i < |r.states| ensures BytesPresent(r.states[i]) {
      RunKeepsInv(timing, r, i);
    }
  }

  // From its reservation to its episode, an upload never meets a physical delete of its key.
  lemma UploadDeleteExclusion(timing: Timing, r: Run, i: nat, u: HandlerId, d: HandlerId)
    requires Sound(timing) && IsRun(timing, r) && i < |r.states|
    requires u in r.states[i].handlers && UploadLive(timing, r.states[i].clock, r.states[i].handlers[u])
    requires d in r.states[i].handlers && DeleteLive(timing, r.states[i].clock, r.states[i].handlers[d])
    ensures r.states[i].handlers[u].key != r.states[i].handlers[d].key
  {
    RunKeepsInv(timing, r, i);
    assert u != d;
  }

  // ---------------------------------------------------------------- whatever the timing

  // What the autoincrement ids give on their own: one lease row a key, and no two handlers
  // with one token.
  ghost predicate TokensOk(s: System) {
    && TablesOk(s.db)
    && (forall h | h in s.handlers :: TokenIssued(s.db, s.handlers[h]))
    && (forall g, h | g in s.handlers && h in s.handlers && g != h :: TokensApart(s.handlers[g], s.handlers[h]))
  }

  predicate Moves(a: Action, h: HandlerId) {
    !a.Tick? && !a.StrayPut? && !a.SetCover? && a.h == h
  }

  lemma TablesStep(timing: Timing, s: System, a: Action, s': System)
    requires TablesOk(s.db) && Step(timing, s, a, s')
    ensures TablesOk(s'.db)
    ensures s.db.nextReservation <= s'.db.nextReservation && s.db.nextLease <= s'.db.nextLease
  {
  }

  // A handler keeps the token it has or is the one that gets the next.
  lemma TokenStep(timing: Timing, s: System, a: Action, s': System, h: HandlerId)
    requires Step(timing, s, a, s') && h in s'.handlers
    ensures !Moves(a, h) ==> h in s.handlers && s'.handlers[h] == s.handlers[h]
    ensures HoldsReservation(s'.handlers[h]) ==>
      || (HoldsReservation(At(s, h)) && s'.handlers[h].token == At(s, h).token)
      || (Moves(a, h) && s'.handlers[h].token == s.db.nextReservation < s'.db.nextReservation)
    ensures HoldsLease(s'.handlers[h]) ==>
      || (HoldsLease(At(s, h)) && s'.handlers[h].token == At(s, h).token)
      || (Moves(a, h) && s'.handlers[h].token == s.db.nextLease < s'.db.nextLease)
  {
  }

  lemma StepKeepsTokens(timing: Timing, s: System, a: Action, s': System)
    requires TokensOk(s) && Step(timing, s, a, s')
    ensures TokensOk(s')
  {
    TablesStep(timing, s, a, s');
    forall h | h in s'.handlers ensures TokenIssued(s'.db, s'.handlers[h]) {
      TokenStep(timing, s, a, s', h);
    }
    forall g, h | g in s'.handlers && h in s'.handlers && g != h ensures TokensApart(s'.handlers[g], s'.handlers[h]) {
      TokenStep(timing, s, a, s', g);
      TokenStep(timing, s, a, s', h);
      assert g in s.handlers && h in s.handlers ==> TokensApart(s.handlers[g], s.handlers[h]);
    }
  }

  lemma {:induction false} RunKeepsTokens(timing: Timing, r: Run, i: nat)
    requires IsRun(timing, r) && i < |r.states|
    ensures TokensOk(r.states[i])
  {
    if i == 0 {
    } else {
      RunKeepsTokens(timing, r, i - 1);
      StepKeepsTokens(timing, r.states[i - 1], r.actions[i - 1], r.states[i]);
    }
  }

  // A key has at most one lease row under any timing, and under sound bounds at most one
  // physical delete in flight.
  lemma SingleDeleteOwner(timing: Timing, r: Run, i: nat)
    requires IsRun(timing, r) && i < |r.states|
    ensures var s := r.states[i];
      forall t, v | t in s.db.leases && v in s.db.leases && s.db.leases[t].key == s.db.leases[v].key :: t == v
    ensures var s := r.states[i];
      Sound(timing) ==> forall g, h |
        && g in s.handlers && DeleteLive(timing, s.clock, s.handlers[g])
        && h in s.handlers && DeleteLive(timing, s.clock, s.handlers[h])
        && s.handlers[g].key == s.handlers[h].key :: g == h
  {
    RunKeepsTokens(timing, r, i);
    if Sound(timing) {
      RunKeepsInv(timing, r, i);
      LiveDeletesApart(timing, r.states[i]);
    }
  }

  lemma LiveDeletesApart(timing: Timing, s: System)
    requires Inv(timing, s)
    ensures forall g, h |
      && g in s.handlers && DeleteLive(timing, s.clock, s.handlers[g])
      && h in s.handlers && DeleteLive(timing, s.clock, s.handlers[h])
      && s.handlers[g].key == s.handlers[h].key :: g == h
  {
    forall g, h |
      && g in s.handlers && DeleteLive(timing, s.clock, s.handlers[g])
      && h in s.handlers && DeleteLive(timing, s.clock, s.handlers[h])
      && s.handlers[g].key == s.handlers[h].key
      ensures g == h
    {
      assert LeasePresent(s.db, s.handlers[g]) && LeasePresent(s.db, s.handlers[h]);
      assert g != h ==> PairOk(timing, s.clock, s.handlers[g], s.handlers[h]);
    }
  }

  // Whether or not a stale lease was replaced meanwhile, a release takes away the caller's
  // own row at most: every other handler's claim stays in the tables.
  lemma ReleaseDropsOwnRowOnly(timing: Timing, r: Run, i: nat, g: HandlerId)
    requires IsRun(timing, r) && i < |r.actions|
    requires r.actions[i].ReleaseReservation? || r.actions[i].ReleaseLease?
    requires g in r.states[i].handlers && g != r.actions[i].h
    ensures var s, s', me := r.states[i], r.states[i + 1], r.states[i].handlers[g];
      && (HoldsReservation(me) && me.token in s.db.reservations ==>
            me.token in s'.db.reservations && s'.db.reservations[me.token] == s.db.reservations[me.token])
      && (HoldsLease(me) && me.token in s.db.leases ==>
            me.token in s'.db.leases && s'.db.leases[me.token] == s.db.leases[me.token])
  {
    RunKeepsTokens(timing, r, i);
    var s, h := r.states[i], r.actions[i].h;
    assert Step(timing, s, r.actions[i], r.states[i + 1]);
    assert TokensApart(s.handlers[g], s.handlers[h]);
  }
}
