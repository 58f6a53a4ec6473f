/**
 The tables that keep a content-addressed media blob alive, and the store's transactions
 over them (store/sqlite/sqlite_crud.go). Each transaction is a function on table values;
 the class in BlobStore.dfy performs it in place and is proved equal to that function.
 */
module BlobTables {
  import opened Options
  import opened UnixTime

  type Key = string
  type EpisodeId = nat
  type ChannelId = nat
  type Token = nat

  // The timing bounds of store/store.go, in nanoseconds. `handoff` is not in the code: it
  // bounds the time from a delete's `now` stamp to the start of its physical delete.
  datatype Timing = Timing(
    reservationTTL: int,
    protectWindow: int,
    leaseTTL: int,
    deleteTimeout: int,
    handoff: int)

  // A row of blob_reservations or blob_delete_leases; createdAt is in Unix seconds.
  datatype Mark = Mark(key: Key, createdAt: int)

  // Autoincrement ids are never reused, hence the two counters.
  datatype Db = Db(
    episodes: map<EpisodeId, Key>,
    covers: map<ChannelId, Key>,
    reservations: map<Token, Mark>,
    leases: map<Token, Mark>,
    nextReservation: Token,
    nextLease: Token)

  function ActiveMarks(marks: map<Token, Mark>, key: Key, cutoff: int): set<Token> {
    set t | t in marks && marks[t].key == key && marks[t].createdAt > cutoff
  }

  function EpisodesUsing(episodes: map<EpisodeId, Key>, key: Key): set<EpisodeId> {
    set e | e in episodes && episodes[e] == key
  }

  function CoversUsing(covers: map<ChannelId, Key>, key: Key): set<ChannelId> {
    set c | c in covers && covers[c] == key && covers[c] != ""
  }

  // Everything that keeps the blob alive; zero exactly when nothing does.
  function CountBlobRefs(db: Db, key: Key, cutoff: int): (n: nat)
    ensures n == 0 <==>
      && (forall e | e in db.episodes :: db.episodes[e] != key)
      && (forall c | c in db.covers :: db.covers[c] != key || key == "")
      && (forall t | t in db.reservations :: db.reservations[t].key != key || db.reservations[t].createdAt <= cutoff)
  {
    var es, cs, rs := EpisodesUsing(db.episodes, key), CoversUsing(db.covers, key), ActiveMarks(db.reservations, key, cutoff);
    assert forall e | e in db.episodes && db.episodes[e] == key :: e in es;
    assert forall c | c in db.covers && db.covers[c] == key && key != "" :: c in cs;
    assert forall t | t in db.reservations && db.reservations[t].key == key && db.reservations[t].createdAt > cutoff :: t in rs;
    |es| + |cs| + |rs|
  }

  // An active lease means a physical delete of the key may be under way.
  predicate LeaseActive(db: Db, timing: Timing, key: Key, now: int) {
    exists t | t in db.leases :: db.leases[t].key == key && db.leases[t].createdAt > ToUnix(now - timing.leaseTTL)
  }

  function DropKey(marks: map<Token, Mark>, key: Key): map<Token, Mark> {
    map t | t in marks && marks[t].key != key :: marks[t]
  }

  // None is ErrBlobDeleting.
  function ReserveBlob(db: Db, timing: Timing, key: Key, now: int): (Db, Option<Token>) {
    if LeaseActive(db, timing, key, now) then (db, None)
    else
      var row := Mark(key, ToUnix(now));
      (db.(reservations := db.reservations[db.nextReservation := row], nextReservation := db.nextReservation + 1),
       Some(db.nextReservation))
  }

  function ReleaseBlob(db: Db, token: Token): Db {
    db.(reservations := db.reservations - {token})
  }

  // None: another deleter owns the key's physical delete.
  function AcquireDeleteLease(db: Db, timing: Timing, key: Key, now: int): (Db, Option<Token>) {
    if LeaseActive(db, timing, key, now) then (db, None)
    else
      var row := Mark(key, ToUnix(now));
      (db.(leases := DropKey(db.leases, key)[db.nextLease := row], nextLease := db.nextLease + 1),
       Some(db.nextLease))
  }

  function ReleaseDeleteLease(db: Db, token: Token): Db {
    db.(leases := db.leases - {token})
  }

  // Some(token): nothing references the key and the caller now owns its physical delete.
  function BlobOrphaned(db: Db, timing: Timing, key: Key, now: int): (Db, Option<Token>) {
    if key == "" || CountBlobRefs(db, key, ToUnix(now - timing.reservationTTL)) != 0 then (db, None)
    else AcquireDeleteLease(db, timing, key, now)
  }

  function DeleteEpisode(db: Db, timing: Timing, id: EpisodeId, now: int): (Db, Option<Token>)
    requires id in db.episodes
  {
    BlobOrphaned(db.(episodes := db.episodes - {id}), timing, db.episodes[id], now)
  }

  // ---------------------------------------------------------------- in plain terms

  // The key has a lease row younger than its lifetime.
  predicate LeaseHeld(leases: map<Token, Mark>, timing: Timing, key: Key, now: int) {
    exists t | t in leases :: leases[t].key == key && leases[t].createdAt * SECOND > now - timing.leaseTTL
  }

  // Nothing uses the key's blob: no episode, no cover, no young reservation, no delete.
  predicate Orphaned(episodes: map<EpisodeId, Key>, covers: map<ChannelId, Key>, reservations: map<Token, Mark>,
                     leases: map<Token, Mark>, timing: Timing, key: Key, now: int)
  {
    && key != ""
    && (forall e | e in episodes :: episodes[e] != key)
    && (forall c | c in covers :: covers[c] != key)
    && (forall t | t in reservations :: reservations[t].key == key ==> reservations[t].createdAt * SECOND <= now - timing.reservationTTL)
    && !LeaseHeld(leases, timing, key, now)
  }

  lemma LeaseActiveIsHeld(db: Db, timing: Timing, key: Key, now: int)
    ensures LeaseActive(db, timing, key, now) <==> LeaseHeld(db.leases, timing, key, now)
  {
    forall t | t in db.leases
      ensures db.leases[t].createdAt > ToUnix(now - timing.leaseTTL) <==> db.leases[t].createdAt * SECOND > now - timing.leaseTTL
    {
      YoungerThan(db.leases[t].createdAt, now - timing.leaseTTL);
    }
    if LeaseActive(db, timing, key, now) {
      var t :| t in db.leases && db.leases[t].key == key && db.leases[t].createdAt > ToUnix(now - timing.leaseTTL);
      assert db.leases[t].createdAt * SECOND > now - timing.leaseTTL;
    }
    if LeaseHeld(db.leases, timing, key, now) {
      var t :| t in db.leases && db.leases[t].key == key && db.leases[t].createdAt * SECOND > now - timing.leaseTTL;
      assert db.leases[t].createdAt > ToUnix(now - timing.leaseTTL);
    }
  }

  // A stored second lies past a truncated cutoff exactly when it lies past the cutoff.
  lemma YoungerThan(createdAt: int, cutoff: int)
    ensures createdAt > ToUnix(cutoff) <==> createdAt * SECOND > cutoff
  {
  }

  // The transaction takes the lease exactly when the blob is an orphan.
  lemma OrphanIsLeased(db: Db, timing: Timing, key: Key, now: int)
    ensures BlobOrphaned(db, timing, key, now).1.Some? <==>
      Orphaned(db.episodes, db.covers, db.reservations, db.leases, timing, key, now)
  {
    LeaseActiveIsHeld(db, timing, key, now);
    var cutoff := now - timing.reservationTTL;
    forall t | t in db.reservations
      ensures db.reservations[t].createdAt <= ToUnix(cutoff) <==> db.reservations[t].createdAt * SECOND <= cutoff
    {
      YoungerThan(db.reservations[t].createdAt, cutoff);
    }
  }

  datatype DeleteResult =
    | NotFound
    | Deleted(mediaKey: Key, deleteToken: Option<Token>)
}
