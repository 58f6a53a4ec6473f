/**
 The store object over its live tables: every method is one committed transaction that
 changes the tables in place, proved equal to the function of the same name.
 */
module BlobStorage {
  import opened Options
  import opened UnixTime
  import opened BlobTables
  import Tx = BlobTables

  // The one new lease row of the key, stamped in whole seconds; other keys' rows stay.
  ghost predicate OnlyLease(before: map<Token, Mark>, after: map<Token, Mark>, token: Token, key: Key, now: int) {
    && token in after && after[token].key == key && after[token].createdAt * SECOND <= now < (after[token].createdAt + 1) * SECOND
    && forall t | t != token :: if t in before && before[t].key != key then t in after && after[t] == before[t] else t !in after
  }

  class BlobStore {
    const timing: Timing
    var episodes: map<EpisodeId, Key>
    var covers: map<ChannelId, Key>
    var reservations: map<Token, Mark>
    var leases: map<Token, Mark>
    var nextReservation: Token
    var nextLease: Token

    ghost function Tables(): Db
      reads this
    {
      Db(episodes, covers, reservations, leases, nextReservation, nextLease)
    }

    constructor (timing: Timing)
      ensures this.timing == timing
      ensures Tables() == Db(map[], map[], map[], map[], 0, 0)
    {
      this.timing := timing;
      episodes, covers, reservations, leases := map[], map[], map[], map[];
      nextReservation, nextLease := 0, 0;
    }

    method InsertReservation(key: Key, createdAt: int) returns (token: Token)
      modifies this`reservations, this`nextReservation
      ensures token == old(nextReservation) && nextReservation == token + 1
      ensures reservations == old(reservations)[token := Mark(key, createdAt)]
    {
      token := nextReservation;
      reservations := reservations[token := Mark(key, createdAt)];
      nextReservation := nextReservation + 1;
    }

    method CountActiveLeases(key: Key, now: int) returns (n: nat)
      ensures n > 0 <==> LeaseActive(Tables(), timing, key, now)
    {
      var active := ActiveMarks(leases, key, ToUnix(now - timing.leaseTTL));
      n := |active|;
      assert forall t :: t in active <==>
                         t in leases && leases[t].key == key && leases[t].createdAt > ToUnix(now - timing.leaseTTL);
    }

    method ReserveBlob(key: Key, now: int) returns (token: Option<Token>)
      modifies this`reservations, this`nextReservation
      ensures (Tables(), token) == Tx.ReserveBlob(old(Tables()), timing, key, now)
      ensures token.None? <==> LeaseHeld(leases, timing, key, now)
      ensures token.None? ==> reservations == old(reservations)
      ensures token.Some? ==>
        && token.value == old(nextReservation) && token.value in reservations
        && reservations == old(reservations)[token.value := reservations[token.value]]
        && reservations[token.value].key == key
        && reservations[token.value].createdAt * SECOND <= now < (reservations[token.value].createdAt + 1) * SECOND
    {
      LeaseActiveIsHeld(Tables(), timing, key, now);
      var active := CountActiveLeases(key, now);
      if active > 0 {
        return None;
      }
      var id := InsertReservation(key, ToUnix(now));
      return Some(id);
    }

    method ReleaseBlob(token: Token)
      modifies this`reservations
      ensures Tables() == Tx.ReleaseBlob(old(Tables()), token)
      ensures reservations == old(reservations) - {token}
    {
      reservations := reservations - {token};
    }

    method AcquireDeleteLease(key: Key, now: int) returns (token: Option<Token>)
      modifies this`leases, this`nextLease
      ensures (Tables(), token) == Tx.AcquireDeleteLease(old(Tables()), timing, key, now)
      ensures token.None? <==> LeaseHeld(old(leases), timing, key, now)
      ensures token.None? ==> leases == old(leases)
      ensures token.Some? ==> OnlyLease(old(leases), leases, token.value, key, now) && token.value == old(nextLease)
    {
      LeaseActiveIsHeld(Tables(), timing, key, now);
      var active := CountActiveLeases(key, now);
      if active > 0 {
        return None;
      }
      leases := DropKey(leases, key);
      token := Some(nextLease);
      leases := leases[nextLease := Mark(key, ToUnix(now))];
      nextLease := nextLease + 1;
    }

    method ReleaseDeleteLease(token: Token)
      modifies this`leases
      ensures Tables() == Tx.ReleaseDeleteLease(old(Tables()), token)
      ensures leases == old(leases) - {token}
    {
      leases := leases - {token};
    }

    // False is a conflict on the episode id.
    method CreateEpisode(id: EpisodeId, key: Key) returns (ok: bool)
      modifies this`episodes
      ensures ok <==> id !in old(episodes)
      ensures episodes == if ok then old(episodes)[id := key] else old(episodes)
    {
      if id in episodes {
        return false;
      }
      episodes := episodes[id := key];
      return true;
    }

    method CountRefs(key: Key, cutoff: int) returns (n: nat)
      ensures n == CountBlobRefs(Tables(), key, cutoff)
    {
      var es := EpisodesUsing(episodes, key);
      var cs := CoversUsing(covers, key);
      var rs := ActiveMarks(reservations, key, cutoff);
      n := |es| + |cs| + |rs|;
    }

    method BlobOrphaned(key: Key, now: int) returns (token: Option<Token>)
      modifies this`leases, this`nextLease
      ensures (Tables(), token) == Tx.BlobOrphaned(old(Tables()), timing, key, now)
      ensures token.Some? <==> Orphaned(episodes, covers, reservations, old(leases), timing, key, now)
      ensures token.None? ==> leases == old(leases)
      ensures token.Some? ==> OnlyLease(old(leases), leases, token.value, key, now) && token.value == old(nextLease)
    {
      OrphanIsLeased(Tables(), timing, key, now);
      if key == "" {
        return None;
      }
      var refs := CountRefs(key, ToUnix(now - timing.reservationTTL));
      if refs != 0 {
        return None;
      }
      token := AcquireDeleteLease(key, now);
    }

    method DeleteEpisode(id: EpisodeId, now: int) returns (r: DeleteResult)
      modifies this`episodes, this`leases, this`nextLease
      ensures r.NotFound? <==> id !in old(episodes)
      ensures r.NotFound? ==> Tables() == old(Tables())
      ensures r.Deleted? ==>
        && r.mediaKey == old(episodes)[id]
        && (Tables(), r.deleteToken) == Tx.DeleteEpisode(old(Tables()), timing, id, now)
        && episodes == old(episodes) - {id}
        && (r.deleteToken.Some? <==> Orphaned(episodes, covers, reservations, old(leases), timing, r.mediaKey, now))
        && (r.deleteToken.None? ==> leases == old(leases))
        && (r.deleteToken.Some? ==>
              OnlyLease(old(leases), leases, r.deleteToken.value, r.mediaKey, now) && r.deleteToken.value == old(nextLease))
    {
      if id !in episodes {
        return NotFound;
      }
      var key := episodes[id];
      episodes := episodes - {id};
      OrphanIsLeased(Tables(), timing, key, now);
      var token := None;
      if key != "" {
        var refs := CountRefs(key, ToUnix(now - timing.reservationTTL));
        if refs == 0 {
          token := AcquireDeleteLease(key, now);
        }
      }
      return Deleted(key, token);
    }
  }
}
