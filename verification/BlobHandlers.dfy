/**
 The admin handlers that create and delete media, as the code runs them from top to bottom
 (server/handlers_admin.go): each call into the store or the blob store is shown to be one
 step of the protocol, so an undisturbed request is a stretch of a run, and all that is
 proved about runs holds for it. What the environment decides, durations and failures, is a
 parameter.
 */
module BlobHandlers {
  import opened Options
  import opened UnixTime
  import opened BlobTables
  import opened BlobStorage
  import opened BlobProtocol
  import opened BlobSafety

  const RESERVE_BUDGET := 500 * SECOND / 1000
  const RESERVE_STEP := 20 * SECOND / 1000

  // How long a physical delete takes to begin and to finish, and whether it does its work.
  datatype DeleteLuck = DeleteLuck(wait: nat, duration: nat, works: bool)

  datatype CreateLuck = CreateOk | CreateUnreported | CreateFails

  datatype UploadLuck = UploadLuck(putTime: nat, putWorks: bool, createTime: nat, create: CreateLuck, cleanup: DeleteLuck)

  // The bytes are stored and the transaction can still commit within the protect window.
  predicate CommitsInTime(timing: Timing, waited: int, luck: UploadLuck) {
    luck.putWorks && waited + luck.putTime + luck.createTime <= timing.protectWindow
  }

  // An upload that got its reservation after `waited`: what it answers and leaves behind.
  ghost predicate Uploaded(timing: Timing, key: Key, id: EpisodeId, luck: UploadLuck, since: int, waited: int,
                           before: System, after: System, r: UploadResult)
  {
    var inTime := CommitsInTime(timing, waited, luck);
    var checkedAt := since + waited + luck.putTime + luck.createTime;
    && r == (if luck.create == CreateOk && inTime then Created else ServerError)
    && after.db.episodes ==
       (if luck.create != CreateFails && inTime then before.db.episodes[id := key] else before.db.episodes)
    && after.blobs ==
       if !luck.putWorks then before.blobs
       else if r.ServerError? && DeleteTakesEffect(timing, luck.cleanup)
               && Orphaned(after.db.episodes, after.db.covers, after.db.reservations, before.db.leases, timing, key, checkedAt)
       then before.blobs - {key}
       else before.blobs + {key}
  }

  // Only the episodes, the leases and the bytes before it matter.
  lemma SameStart(timing: Timing, key: Key, id: EpisodeId, luck: UploadLuck, since: int, waited: int,
                  start: System, before: System, after: System, r: UploadResult)
    requires Uploaded(timing, key, id, luck, since, waited, before, after, r)
    requires start.db.episodes == before.db.episodes && start.db.leases == before.db.leases && start.blobs == before.blobs
    ensures Uploaded(timing, key, id, luck, since, waited, start, after, r)
  {
  }

  predicate DeleteTakesEffect(timing: Timing, luck: DeleteLuck) {
    luck.works && luck.duration <= timing.deleteTimeout
  }

  // No lease is left over: the one that was taken is gone, and with it the key's stale ones.
  ghost predicate LeaseReturned(before: map<Token, Mark>, after: map<Token, Mark>, key: Key, taken: bool) {
    forall t :: if t in before && !(taken && before[t].key == key) then t in after && after[t] == before[t] else t !in after
  }

  lemma TakenAndReturned(before: map<Token, Mark>, during: map<Token, Mark>, token: Token, key: Key, now: int)
    requires OnlyLease(before, during, token, key, now) && token !in before
    ensures LeaseReturned(before, during - {token}, key, true)
  {
  }

  // One of the attempts, 20 ms apart for half a second and within the window, finds no lease.
  predicate ReservesInTime(leases: map<Token, Mark>, timing: Timing, key: Key, since: int) {
    exists n: nat | n <= 25 :: AttemptSucceeds(leases, timing, key, since, n)
  }

  predicate AttemptSucceeds(leases: map<Token, Mark>, timing: Timing, key: Key, since: int, n: nat) {
    n * 20_000_000 <= timing.protectWindow && !LeaseHeld(leases, timing, key, since + n * 20_000_000)
  }

  datatype UploadResult = Created | Unavailable | ServerError

  lemma NothingLost(timing: Timing, r: Run)
    requires IsRun(timing, r)
    ensures Sound(timing) ==> BytesPresent(Last(r))
  {
    if Sound(timing) {
      BlobsNeverLost(timing, r);
    }
  }

  class Site {
    const store: BlobStore
    var blobs: set<Key>
    var clock: int
    ghost var trace: Run

    ghost predicate Valid()
      reads this, store
    {
      && IsRun(store.timing, trace)
      && Now() == System(store.Tables(), blobs, clock, Now().handlers)
      && (forall t | t in store.reservations :: t < store.nextReservation)
      && (forall t | t in store.leases :: t < store.nextLease)
    }

    ghost function Now(): System
      reads this
      requires trace.states != []
    {
      Last(trace)
    }

    ghost predicate At(h: HandlerId, me: Handler)
      reads this
      requires trace.states != []
    {
      h in Now().handlers && Now().handlers[h] == me
    }

    constructor (timing: Timing)
      ensures Valid() && fresh(store) && store.timing == timing
    {
      store := new BlobStore(timing);
      blobs, clock := {}, 0;
      trace := Run([System(Db(map[], map[], map[], map[], 0, 0), {}, 0, map[])], []);
    }

    ghost method Took(a: Action, s': System)
      requires IsRun(store.timing, trace) && Step(store.timing, Now(), a, s')
      modifies this`trace
      ensures IsRun(store.timing, trace) && Now() == s'
    {
      trace := Extend(store.timing, trace, a, s');
    }

    method Elapse(d: nat)
      requires Valid()
      modifies this`clock, this`trace
      ensures Valid() && clock == old(clock) + d && Now().handlers == old(Now().handlers)
    {
      clock := clock + d;
      Took(Tick(clock), Now().(clock := clock));
    }

    // ---------------------------------------------------------------- deletes

    // The call to the blob store, aborted at its timeout.
    method PhysicalDelete(h: HandlerId, key: Key, token: Token, stamp: int, luck: DeleteLuck)
      requires Valid() && At(h, Deleting(key, token, stamp, clock))
      modifies this`blobs, this`clock, this`trace
      ensures Valid() && At(h, DeleteDone(token))
      ensures blobs == if DeleteTakesEffect(store.timing, luck) then old(blobs) - {key} else old(blobs)
    {
      if luck.duration <= store.timing.deleteTimeout {
        Elapse(luck.duration);
        if luck.works {
          blobs := blobs - {key};
          Took(DeleteBytes(h), Now().(blobs := blobs));
        }
      } else if 0 <= store.timing.deleteTimeout {
        Elapse(store.timing.deleteTimeout);
      }
      Took(DeleteReturns(h), Goto(Now(), h, DeleteDone(token)));
    }

    // The lease is released even when the delete fails or times out.
    method DeleteLeasedBlob(h: HandlerId, key: Key, token: Token, stamp: int, luck: DeleteLuck)
      requires Valid() && At(h, Leased(key, token, stamp))
      requires clock + luck.wait <= stamp + store.timing.handoff
      modifies this`blobs, this`clock, this`trace, store`leases
      ensures Valid() && At(h, Finished)
      ensures blobs == if DeleteTakesEffect(store.timing, luck) then old(blobs) - {key} else old(blobs)
      ensures store.leases == old(store.leases) - {token}
    {
      Elapse(luck.wait);
      Took(StartDelete(h), Goto(Now(), h, Deleting(key, token, stamp, clock)));
      PhysicalDelete(h, key, token, stamp, luck);
      store.ReleaseDeleteLease(token);
      Took(ReleaseLease(h), Goto(Now().(db := store.Tables()), h, Finished));
    }

    method EpisodeDelete(h: HandlerId, id: EpisodeId, luck: DeleteLuck) returns (found: bool)
      requires Valid() && h !in Now().handlers && luck.wait <= store.timing.handoff
      modifies this`blobs, this`clock, this`trace, store`episodes, store`leases, store`nextLease
      ensures Valid() && found == (id in old(store.episodes))
      ensures store.episodes == old(store.episodes) - {id}
      ensures found ==>
        var key := old(store.episodes)[id];
        blobs == if Orphaned(store.episodes, store.covers, store.reservations, old(store.leases), store.timing, key, old(clock))
                    && DeleteTakesEffect(store.timing, luck)
                 then old(blobs) - {key} else old(blobs)
      ensures found ==>
        var key := old(store.episodes)[id];
        LeaseReturned(old(store.leases), store.leases, key,
                      Orphaned(store.episodes, store.covers, store.reservations, old(store.leases), store.timing, key, old(clock)))
      ensures !found ==> Now() == old(Now())
      ensures found ==> At(h, Finished)
      ensures Sound(store.timing) ==> BytesPresent(Now())
    {
      var stamp := clock;
      ghost var before := Now();
      var r := store.DeleteEpisode(id, stamp);
      found := r.Deleted?;
      if found {
        Took(DeleteRow(h, id, stamp), AfterLease(before, h, r.mediaKey, stamp, (store.Tables(), r.deleteToken)));
        if r.deleteToken.Some? {
          TakenAndReturned(old(store.leases), store.leases, r.deleteToken.value, r.mediaKey, stamp);
          DeleteLeasedBlob(h, r.mediaKey, r.deleteToken.value, stamp, luck);
        }
      }
      NothingLost(store.timing, trace);
    }

    method DeleteOrphanBlob(h: HandlerId, key: Key, luck: DeleteLuck)
      requires Valid() && At(h, RollingBack(key)) && luck.wait <= store.timing.handoff
      modifies this`blobs, this`clock, this`trace, store`leases, store`nextLease
      ensures Valid() && At(h, Finished)
      ensures blobs ==
        if Orphaned(store.episodes, store.covers, store.reservations, old(store.leases), store.timing, key, old(clock))
           && DeleteTakesEffect(store.timing, luck)
        then old(blobs) - {key} else old(blobs)
      ensures LeaseReturned(old(store.leases), store.leases, key,
                Orphaned(store.episodes, store.covers, store.reservations, old(store.leases), store.timing, key, old(clock)))
    {
      var stamp := clock;
      ghost var before := Now();
      var token := store.BlobOrphaned(key, stamp);
      Took(CheckOrphan(h, stamp), AfterLease(before, h, key, stamp, (store.Tables(), token)));
      if token.Some? {
        TakenAndReturned(old(store.leases), store.leases, token.value, key, stamp);
        DeleteLeasedBlob(h, key, token.value, stamp, luck);
      }
    }

    // ---------------------------------------------------------------- uploads

    // Retries while a delete of the key holds its lease, within the budget and the deadline.
    method ReserveMediaKey(h: HandlerId, key: Key, since: int) returns (token: Option<Token>)
      requires Valid() && At(h, Uploading(key, since)) && since == clock
      modifies this`clock, this`trace, store`reservations, store`nextReservation
      ensures Valid() && At(h, if token.Some? then Reserved(key, since, token.value) else Uploading(key, since))
      ensures token.None? ==> store.reservations == old(store.reservations)
      ensures token.Some? ==> token.value !in old(store.reservations) && store.reservations - {token.value} == old(store.reservations)
      ensures token.Some? <==> ReservesInTime(store.leases, store.timing, key, since)
      ensures since <= clock <= since + 500_000_000
      ensures !LeaseHeld(store.leases, store.timing, key, since) ==> clock == since
    {
      var deadline := clock + RESERVE_BUDGET;
      ghost var n: nat := 0;
      while clock <= since + store.timing.protectWindow
        invariant Valid() && At(h, Uploading(key, since)) && n <= 25 && clock == since + n * 20_000_000
        invariant store.reservations == old(store.reservations)
        invariant n > 0 ==> LeaseHeld(store.leases, store.timing, key, since)
        invariant forall m: nat | m < n :: !AttemptSucceeds(store.leases, store.timing, key, since, m)
        decreases 25 - n
      {
        ghost var before := Now();
        token := store.ReserveBlob(key, clock);
        if token.Some? {
          assert AttemptSucceeds(store.leases, store.timing, key, since, n);
          Took(Reserve(h, clock), Goto(before.(db := store.Tables()), h, Reserved(key, since, token.value)));
          return;
        }
        if !(clock < deadline) {
          return None;
        }
        Elapse(RESERVE_STEP);
        n := n + 1;
      }
      return None;
    }

    method ReleaseReservation(h: HandlerId, token: Token)
      requires Valid() && (At(h, Releasing(token)) || exists key :: At(h, CreateFailed(key, token)))
      modifies this`trace, store`reservations
      ensures Valid() && store.reservations == old(store.reservations) - {token}
      ensures var me := old(Now().handlers[h]); At(h, if me.CreateFailed? then RollingBack(me.key) else Finished)
    {
      ghost var me := Now().handlers[h];
      store.ReleaseBlob(token);
      Took(BlobProtocol.ReleaseReservation(h),
           Goto(Now().(db := store.Tables()), h, if me.CreateFailed? then RollingBack(me.key) else Finished));
    }

    // From the protect window on. Whatever happens, the upload's own reservation is gone
    // afterwards and nobody else's is. It succeeds exactly when a reserve gets through, the
    // bytes are stored, and the row commits in time; then row and bytes are there.
    method EpisodeCreate(h: HandlerId, key: Key, id: EpisodeId, luck: UploadLuck) returns (r: UploadResult, ghost waited: nat)
      requires Valid() && h !in Now().handlers && key != "" && id !in store.episodes
      requires luck.cleanup.wait <= store.timing.handoff
      modifies this`blobs, this`clock, this`trace, store
      ensures Valid() && At(h, Finished)
      ensures store.reservations == old(store.reservations)
      ensures r.Unavailable? <==> !ReservesInTime(old(store.leases), store.timing, key, old(clock))
      ensures r.Unavailable? ==> store.episodes == old(store.episodes) && blobs == old(blobs)
      ensures waited <= 500_000_000
      ensures !LeaseHeld(old(store.leases), store.timing, key, old(clock)) ==> waited == 0
      ensures !r.Unavailable? ==> Uploaded(store.timing, key, id, luck, old(clock), waited, old(Now()), Now(), r)
      ensures Sound(store.timing) ==> BytesPresent(Now())
    {
      var since, token := Begin(h, key);
      waited := clock - since;
      if token.None? {
        r := Unavailable;
      } else {
        ghost var before := Now();
        r := PutAndCreate(h, key, id, since, token.value, luck);
        SameStart(store.timing, key, id, luck, since, waited, old(Now()), before, Now(), r);
      }
      NothingLost(store.timing, trace);
    }

    // Sets the protect deadline and reserves the key, or gives up.
    method Begin(h: HandlerId, key: Key) returns (since: int, token: Option<Token>)
      requires Valid() && h !in Now().handlers && key != ""
      modifies this`clock, this`trace, store`reservations, store`nextReservation
      ensures Valid() && At(h, if token.Some? then Reserved(key, since, token.value) else Finished)
      ensures since == old(clock) <= clock <= since + 500_000_000
      ensures token.Some? <==> ReservesInTime(store.leases, store.timing, key, since)
      ensures !LeaseHeld(store.leases, store.timing, key, since) ==> clock == since
      ensures token.None? ==> store.reservations == old(store.reservations)
      ensures token.Some? ==> store.reservations - {token.value} == old(store.reservations)
    {
      since := clock;
      Took(OpenUpload(h, key), Goto(Now(), h, Uploading(key, since)));
      token := ReserveMediaKey(h, key, since);
      if token.None? {
        Took(Stop(h), Goto(Now(), h, Finished));
      }
    }

    method PutAndCreate(h: HandlerId, key: Key, id: EpisodeId, since: int, token: Token, luck: UploadLuck) returns (r: UploadResult)
      requires Valid() && At(h, Reserved(key, since, token)) && id !in store.episodes
      requires luck.cleanup.wait <= store.timing.handoff
      modifies this`blobs, this`clock, this`trace, store
      ensures Valid() && At(h, Finished)
      ensures store.reservations == old(store.reservations) - {token}
      ensures Uploaded(store.timing, key, id, luck, since, old(clock) - since, old(Now()), Now(), r)
    {
      var stored := PutBytes(h, key, since, token, luck);
      if !stored {
        ReleaseReservation(h, token);
        return ServerError;
      }
      r := CommitOrRollBack(h, key, id, since, token, luck);
    }

    method CommitOrRollBack(h: HandlerId, key: Key, id: EpisodeId, since: int, token: Token, luck: UploadLuck)
      returns (r: UploadResult)
      requires Valid() && At(h, Stored(key, since, token)) && id !in store.episodes && luck.putWorks
      requires luck.cleanup.wait <= store.timing.handoff
      modifies this`blobs, this`clock, this`trace, store
      ensures Valid() && At(h, Finished) && store.reservations == old(store.reservations) - {token}
      ensures var inTime := old(clock) + luck.createTime <= since + store.timing.protectWindow;
        && r == (if luck.create == CreateOk && inTime then Created else ServerError)
        && store.episodes == if luck.create != CreateFails && inTime then old(store.episodes)[id := key] else old(store.episodes)
      ensures blobs ==
        if r.ServerError? && DeleteTakesEffect(store.timing, luck.cleanup)
           && Orphaned(store.episodes, store.covers, store.reservations, old(store.leases), store.timing, key,
                       old(clock) + luck.createTime)
        then old(blobs) - {key} else old(blobs)
    {
      Elapse(luck.createTime);
      var ok := CreateRow(h, key, id, since, token, luck.create);
      CleanUp(h, key, token, ok, luck.cleanup);
      return if ok then Created else ServerError;
    }

    // The own reservation goes first, so that the orphan check does not count it.
    method CleanUp(h: HandlerId, key: Key, token: Token, ok: bool, luck: DeleteLuck)
      requires Valid() && At(h, if ok then Releasing(token) else CreateFailed(key, token))
      requires luck.wait <= store.timing.handoff
      modifies this`blobs, this`clock, this`trace, store`reservations, store`leases, store`nextLease
      ensures Valid() && At(h, Finished) && store.reservations == old(store.reservations) - {token}
      ensures blobs ==
        if !ok && Orphaned(store.episodes, store.covers, store.reservations, old(store.leases), store.timing, key, old(clock))
           && DeleteTakesEffect(store.timing, luck)
        then old(blobs) - {key} else old(blobs)
    {
      ReleaseReservation(h, token);
      if !ok {
        DeleteOrphanBlob(h, key, luck);
      }
    }

    method PutBytes(h: HandlerId, key: Key, since: int, token: Token, luck: UploadLuck) returns (ok: bool)
      requires Valid() && At(h, Reserved(key, since, token))
      modifies this`blobs, this`clock, this`trace
      ensures Valid() && At(h, if ok then Stored(key, since, token) else Releasing(token))
      ensures ok == luck.putWorks && clock == old(clock) + luck.putTime
      ensures blobs == if ok then old(blobs) + {key} else old(blobs)
    {
      Elapse(luck.putTime);
      ok := luck.putWorks;
      if ok {
        blobs := blobs + {key};
        Took(Put(h), Goto(Now().(blobs := blobs), h, Stored(key, since, token)));
      } else {
        Took(PutFails(h), Goto(Now(), h, Releasing(token)));
      }
    }

    // Past the protect deadline the transaction cannot commit.
    method CreateRow(h: HandlerId, key: Key, id: EpisodeId, since: int, token: Token, luck: CreateLuck) returns (ok: bool)
      requires Valid() && At(h, Stored(key, since, token)) && id !in store.episodes
      modifies this`trace, store`episodes
      ensures Valid() && At(h, if ok then Releasing(token) else CreateFailed(key, token))
      ensures ok <==> luck == CreateOk && clock <= since + store.timing.protectWindow
      ensures store.episodes ==
        if luck != CreateFails && clock <= since + store.timing.protectWindow then old(store.episodes)[id := key]
        else old(store.episodes)
    {
      var committed := luck != CreateFails && clock <= since + store.timing.protectWindow;
      ok := committed && luck == CreateOk;
      ghost var before := Now();
      if committed {
        var inserted := store.CreateEpisode(id, key);
      }
      Took(BlobProtocol.CreateEpisode(h, id, committed, ok),
           Goto(before.(db := store.Tables()), h, if ok then Releasing(token) else CreateFailed(key, token)));
    }
  }
}
