/**
 How much slack the blob protocol needs. store/store.go asks for
 BlobDeleteTimeout < BlobDeleteLeaseTTL and UploadProtectWindow < BlobReservationTTL; with
 stamps kept in whole seconds the exact requirement is one second more on each side, and
 for a delete it is measured from the stamp, not from the start of the physical delete.
 */
module BlobTightness {
  import opened UnixTime
  import opened BlobTables
  import opened BlobProtocol
  import opened BlobSafety

  // What any configuration satisfies: no bound is negative.
  predicate WellFormed(timing: Timing) {
    && 0 <= timing.protectWindow && 0 <= timing.deleteTimeout && 0 <= timing.handoff
    && 0 <= timing.leaseTTL && 0 <= timing.reservationTTL
  }

  ghost predicate NeverLosesBytes(timing: Timing) {
    forall r: Run | IsRun(timing, r) :: forall i | 0 <= i < |r.states| :: BytesPresent(r.states[i])
  }

  const KEY: Key := "k"

  // The database holds one episode, whose media is KEY; the clock is at the very end of
  // the first second, where truncation costs the most.
  function Start(): System {
    System(Db(map[0 := KEY], map[], map[], map[], 0, 0), {KEY}, SECOND - 1, map[])
  }

  // When a row stamped at the end of the first second is taken for stale.
  function StaleAt(ttl: int): (now: int)
    requires 0 <= ttl
    ensures SECOND - 1 <= now && 0 <= ToUnix(now - ttl)
    ensures now < SECOND + ttl
  {
    if SECOND - 1 <= ttl then ttl else SECOND - 1
  }

  // Nine steps of one key: a delete takes its lease and starts as late as it may, the lease
  // is then taken for stale, and an upload reserves, stores and commits before the bytes go.
  lemma LateDeleteLosesBytes(timing: Timing) returns (r: Run)
    requires WellFormed(timing) && timing.handoff + timing.deleteTimeout + SECOND > timing.leaseTTL
    ensures IsRun(timing, r) && !BytesPresent(Last(r))
  {
    var stale, latest := StaleAt(timing.leaseTTL), SECOND - 1 + timing.handoff;
    var begin := if latest <= stale then latest else stale;
    r := DeleteUnderWay(timing, begin);
    r := Extend(timing, r, Tick(stale), Last(r).(clock := stale));
    r := UploadPastLease(timing, r);
    var s := Last(r);
    r := Extend(timing, r, DeleteBytes(0), s.(blobs := s.blobs - {KEY}));
    assert Last(r).db.episodes[1] == KEY;
  }

  lemma DeleteUnderWay(timing: Timing, begin: int) returns (r: Run)
    requires WellFormed(timing) && SECOND - 1 <= begin <= SECOND - 1 + timing.handoff
    ensures IsRun(timing, r)
    ensures Last(r) == System(Db(map[], map[], map[], map[0 := Mark(KEY, 0)], 0, 1), {KEY}, begin,
                              map[0 := Deleting(KEY, 0, SECOND - 1, begin)])
  {
    var s := Start();
    r := Run([s], []);
    var s1 := AfterLease(s, 0, KEY, SECOND - 1, BlobTables.DeleteEpisode(s.db, timing, 0, SECOND - 1));
    assert s1.db == Db(map[], map[], map[], map[0 := Mark(KEY, 0)], 0, 1);
    r := Extend(timing, r, DeleteRow(0, 0, SECOND - 1), s1);
    r := Extend(timing, r, Tick(begin), s1.(clock := begin));
    r := Extend(timing, r, StartDelete(0), Goto(s1.(clock := begin), 0, Deleting(KEY, 0, SECOND - 1, begin)));
  }

  // With no episode and no active lease left, an upload of KEY goes through at once.
  lemma UploadPastLease(timing: Timing, before: Run) returns (r: Run)
    requires WellFormed(timing) && IsRun(timing, before)
    requires var s := Last(before);
      s.db.episodes == map[] && !LeaseActive(s.db, timing, KEY, s.clock) && s.handlers.Keys == {0}
    ensures IsRun(timing, r)
    ensures before.states <= r.states && before.actions <= r.actions
    ensures var s, s' := Last(before), Last(r);
      && s'.clock == s.clock && s'.db.episodes == map[1 := KEY] && 0 in s'.handlers && s'.handlers[0] == s.handlers[0]
  {
    var now, token := Last(before).clock, Last(before).db.nextReservation;
    var s5 := Goto(Last(before), 1, Uploading(KEY, now));
    r := Extend(timing, before, OpenUpload(1, KEY), s5);
    var s6 := Goto(s5.(db := ReserveBlob(s5.db, timing, KEY, now).0), 1, Reserved(KEY, now, token));
    r := Extend(timing, r, Reserve(1, now), s6);
    var s7 := Goto(s6.(blobs := s6.blobs + {KEY}), 1, Stored(KEY, now, token));
    r := Extend(timing, r, Put(1), s7);
    r := Extend(timing, r, CreateEpisode(1, 1, true, true),
                Goto(s7.(db := s7.db.(episodes := s7.db.episodes[1 := KEY])), 1, Releasing(token)));
  }

  // Eight steps: an upload has stored its bytes but commits as late as it may, its
  // reservation is taken for stale, and a delete of the key's last episode takes the bytes.
  lemma LateCreateLosesBytes(timing: Timing) returns (r: Run)
    requires WellFormed(timing) && timing.protectWindow + SECOND > timing.reservationTTL
    ensures IsRun(timing, r) && !BytesPresent(Last(r))
  {
    r := UploadStored(timing);
    var now := StaleAt(timing.reservationTTL);
    var s4 := Last(r).(clock := now);
    r := Extend(timing, r, Tick(now), s4);
    var s5 := AfterLease(s4, 1, KEY, now, BlobTables.DeleteEpisode(s4.db, timing, 0, now));
    assert s5.handlers == s4.handlers[1 := Leased(KEY, 0, now)];
    r := Extend(timing, r, DeleteRow(1, 0, now), s5);
    var s6 := Goto(s5, 1, Deleting(KEY, 0, now, now));
    r := Extend(timing, r, StartDelete(1), s6);
    var s7 := Goto(s6.(db := s6.db.(episodes := s6.db.episodes[1 := KEY])), 0, Releasing(0));
    r := Extend(timing, r, CreateEpisode(0, 1, true, true), s7);
    r := Extend(timing, r, DeleteBytes(1), s7.(blobs := s7.blobs - {KEY}));
    assert Last(r).db.episodes[1] == KEY;
  }

  lemma UploadStored(timing: Timing) returns (r: Run)
    requires WellFormed(timing)
    ensures IsRun(timing, r)
    ensures Last(r) == System(Db(map[0 := KEY], map[], map[0 := Mark(KEY, 0)], map[], 1, 0), {KEY}, SECOND - 1,
                              map[0 := Stored(KEY, SECOND - 1, 0)])
  {
    var s := Start();
    r := Run([s], []);
    var s1 := Goto(s, 0, Uploading(KEY, SECOND - 1));
    r := Extend(timing, r, OpenUpload(0, KEY), s1);
    var s2 := Goto(s1.(db := ReserveBlob(s1.db, timing, KEY, SECOND - 1).0), 0, Reserved(KEY, SECOND - 1, 0));
    r := Extend(timing, r, Reserve(0, SECOND - 1), s2);
    r := Extend(timing, r, Put(0), Goto(s2.(blobs := s2.blobs + {KEY}), 0, Stored(KEY, SECOND - 1, 0)));
  }

  // ---------------------------------------------------------------- after the delete call

  // A physical delete of the key that handler h began takes effect only now, within the
  // timeout of its start but after the call for it returned.
  ghost predicate LandsLate(timing: Timing, r: Run, h: HandlerId, key: Key, s': System)
    requires IsRun(timing, r)
  {
    && s' == Last(r).(blobs := Last(r).blobs - {key})
    && exists i, token, stamp, started | 0 <= i < |r.actions| ::
         && h in r.states[i].handlers && r.states[i].handlers[h] == Deleting(key, token, stamp, started)
         && r.actions[i] == DeleteReturns(h) && Last(r).clock <= started + timing.deleteTimeout
  }

  // The assumption that a delete takes effect before its call returns is needed under every
  // timing: the lease is released on return, whether the call succeeded or timed out, and an
  // upload gets in before the bytes go.
  lemma EffectAfterReturnLosesBytes(timing: Timing) returns (r: Run, s': System)
    requires WellFormed(timing)
    ensures IsRun(timing, r) && LandsLate(timing, r, 0, KEY, s') && !BytesPresent(s')
  {
    var begin := SECOND - 1;
    var end := begin + timing.deleteTimeout;
    r := DeleteUnderWay(timing, begin);
    r := Extend(timing, r, Tick(end), Last(r).(clock := end));
    var i := |r.actions|;
    r := Extend(timing, r, DeleteReturns(0), Goto(Last(r), 0, DeleteDone(0)));
    var released := Goto(Last(r).(db := ReleaseDeleteLease(Last(r).db, 0)), 0, Finished);
    r := Extend(timing, r, ReleaseLease(0), released);
    r := UploadPastLease(timing, r);
    s' := Last(r).(blobs := Last(r).blobs - {KEY});
    assert r.states[i].handlers[0] == Deleting(KEY, 0, SECOND - 1, begin) && r.actions[i] == DeleteReturns(0);
    assert s'.db.episodes[1] == KEY;
  }

  // ---------------------------------------------------------------- the exact bounds

  // The bounds of `Sound` are exactly what the protocol needs.
  lemma BlobSafetyExactlyWhenSound(timing: Timing)
    requires WellFormed(timing)
    ensures NeverLosesBytes(timing) <==> Sound(timing)
  {
    if Sound(timing) {
      forall r: Run | IsRun(timing, r) ensures forall i | 0 <= i < |r.states| :: BytesPresent(r.states[i]) {
        BlobsNeverLost(timing, r);
      }
    } else if timing.handoff + timing.deleteTimeout + SECOND > timing.leaseTTL {
      var r := LateDeleteLosesBytes(timing);
      assert !NeverLosesBytes(timing);
    } else {
      var r := LateCreateLosesBytes(timing);
      assert !NeverLosesBytes(timing);
    }
  }

  // The constants of store/store.go.
  function Shipped(handoff: int): Timing {
    Timing(24 * HOUR, HOUR, 5 * MINUTE, 30 * SECOND, handoff)
  }

  // As shipped, a delete may take up to 269 seconds from its stamp to its physical start.
  lemma ShippedConstantsAreSafe(handoff: int)
    requires 0 <= handoff
    ensures NeverLosesBytes(Shipped(handoff)) <==> handoff <= 269_000_000_000
    ensures Shipped(handoff) == // a day, an hour, five minutes and thirty seconds
      Timing(86_400_000_000_000, 3_600_000_000_000, 300_000_000_000, 30_000_000_000, handoff)
  {
    BlobSafetyExactlyWhenSound(Shipped(handoff));
  }
}
