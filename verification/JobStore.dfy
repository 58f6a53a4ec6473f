/**
 The store object over its live job, episode and transcript tables, the backlog gauge and
 what draining the queue does to it.
 */
module JobStorage {
  import opened Collections
  import opened Options
  import opened UnixTime
  import opened JobTables
  import Tx = JobTables

  // Some runnable job is the oldest.
  lemma {:induction false} OldestExists(jobs: map<JobId, Job>, kinds: seq<string>, now: int, candidates: set<JobId>)
    returns (id: JobId)
    requires candidates != {} && forall k | k in candidates :: k in jobs && Runnable(jobs[k], kinds, now)
    ensures id in candidates && forall k | k in candidates :: NotAfter(jobs[id], jobs[k])
    decreases candidates
  {
    var c :| c in candidates;
    var rest := candidates - {c};
    if rest == {} {
      assert candidates == {c};
      id := c;
    } else {
      var best := OldestExists(jobs, kinds, now, rest);
      id := if NotAfter(jobs[c], jobs[best]) then c else best;
      assert forall k | k in candidates :: k == c || k in rest;
    }
  }

  // A due job, and no due job has an earlier run_after, nor the same and an earlier created_at.
  ghost predicate TakenFirst(jobs: map<JobId, Job>, kinds: seq<string>, now: int, id: JobId) {
    && id in jobs && Due(jobs[id], kinds, now)
    && forall k | k in jobs && Due(jobs[k], kinds, now) ::
         jobs[id].runAfter <= jobs[k].runAfter && (jobs[id].runAfter == jobs[k].runAfter ==> jobs[id].createdAt <= jobs[k].createdAt)
  }

  // That job is processing under a new token until the first whole second at or after the
  // end of the lease; nothing else changes.
  ghost predicate LeasedOnly(before: map<JobId, Job>, after: map<JobId, Job>, id: JobId, now: int, lease: int) {
    && id in before && id in after && after == before[id := after[id]]
    && after[id] == before[id].(status := JobProcessing, attempts := before[id].attempts + 1, runAfter := after[id].runAfter)
    && (after[id].runAfter - 1) * SECOND < now + lease <= after[id].runAfter * SECOND
  }

  // The job stands in one of these states under this very claim.
  predicate Claims(jobs: map<JobId, Job>, id: JobId, token: nat, states: set<JobStatus>) {
    id in jobs && jobs[id].attempts == token && jobs[id].status in states
  }

  // A settlement that took effect sets the status of the episode, if it is there, and stores
  // a transcript if it brings one; whatever transcript there was stays otherwise.
  ghost predicate EpisodeWritten(before: Db, after: Db, ok: bool, episode: EpisodeId, transcript: Option<Transcript>, status: TranscriptStatus) {
    && after.episodes == (if ok && episode in before.episodes then before.episodes[episode := status] else before.episodes)
    && after.transcripts ==
       match transcript
       case Some(t) => if ok then before.transcripts[episode := t] else before.transcripts
       case None => before.transcripts
  }

  class JobStore {
    var episodes: map<EpisodeId, TranscriptStatus>
    var transcripts: map<EpisodeId, Transcript>
    var jobs: map<JobId, Job>

    ghost function Tables(): Db
      reads this
    {
      Db(episodes, transcripts, jobs)
    }

    constructor ()
      ensures Tables() == Db(map[], map[], map[])
    {
      episodes, transcripts, jobs := map[], map[], map[];
    }

    method EnqueueTranscriptionJob(id: JobId, kind: string, episode: EpisodeId, now: int) returns (r: Outcome)
      modifies this`episodes, this`jobs
      ensures (Tables(), r) == Tx.EnqueueTranscriptionJob(old(Tables()), id, kind, episode, now)
      ensures r.Ok? <==>
        && episode in old(episodes) && id !in old(jobs)
        && old(episodes)[episode] != TranscriptPending && old(episodes)[episode] != TranscriptProcessing
      ensures r == ErrNotFound <==> episode !in old(episodes)
      ensures !r.Ok? ==> Tables() == old(Tables()) && (r == ErrNotFound || r == ErrConflict)
      ensures r.Ok? ==>
        && episodes == old(episodes)[episode := TranscriptPending]
        && id in jobs && jobs == old(jobs)[id := jobs[id]]
        && jobs[id] == Job(kind, episode, JobPending, 0, "", jobs[id].runAfter, jobs[id].runAfter)
        && jobs[id].runAfter * SECOND <= now < (jobs[id].runAfter + 1) * SECOND
    {
      if episode !in episodes || Active(episodes[episode]) {
        // the guarded update matched no row: tell the two reasons apart
        return if episode !in episodes then ErrNotFound else ErrConflict;
      }
      if id in jobs {
        return ErrConflict;
      }
      episodes := episodes[episode := TranscriptPending];
      jobs := jobs[id := Job(kind, episode, JobPending, 0, "", ToUnix(now), ToUnix(now))];
      return Ok;
    }

    // The SELECT ... ORDER BY ... LIMIT 1 followed by the guarded UPDATE.
    method ClaimJob(kinds: seq<string>, now: int, lease: int) returns (claimed: Option<JobId>)
      modifies this`jobs
      ensures claimed.None? <==> RunnableJobs(old(jobs), kinds, now) == {}
      ensures claimed.None? ==> Tables() == old(Tables())
      ensures claimed.Some? ==>
        && IsOldest(old(jobs), kinds, now, claimed.value)
        && Tables() == Tx.ClaimJob(old(Tables()), claimed.value, now, lease)
      ensures claimed.None? <==> forall k | k in old(jobs) :: !Due(old(jobs)[k], kinds, now)
      ensures claimed.Some? ==> TakenFirst(old(jobs), kinds, now, claimed.value)
      ensures claimed.Some? ==> LeasedOnly(old(jobs), jobs, claimed.value, now, lease)
    {
      forall k | k in jobs ensures Runnable(jobs[k], kinds, now) <==> Due(jobs[k], kinds, now) {
        RunnableIsDue(jobs[k], kinds, now);
      }
      var candidates := RunnableJobs(jobs, kinds, now);
      assert forall k :: k in candidates <==> k in jobs && Due(jobs[k], kinds, now);
      if candidates == {} {
        return None;
      }
      ghost var first := OldestExists(jobs, kinds, now, candidates);
      assert IsOldest(jobs, kinds, now, first);
      var id :| id in jobs && IsOldest(jobs, kinds, now, id);
      var job := jobs[id];
      job := job.(status := JobProcessing);
      job := job.(attempts := job.attempts + 1);
      job := job.(runAfter := ToUnixCeil(now + lease));
      jobs := jobs[id := job];
      return Some(id);
    }

    method SetJobStatus(id: JobId, token: nat, status: JobStatus, cause: string, runAfter: Option<int>) returns (r: Outcome)
      modifies this`jobs
      ensures (Tables(), r) == Tx.SetJobStatus(old(Tables()), id, token, status, cause, runAfter)
      ensures r == if Claims(old(jobs), id, token, {JobProcessing}) then Ok else ErrStaleClaim
      ensures !r.Ok? ==> jobs == old(jobs)
      ensures r.Ok? ==>
        && id in jobs && jobs == old(jobs)[id := jobs[id]]
        && jobs[id] == old(jobs)[id].(status := status, lastError := cause, runAfter := jobs[id].runAfter)
        && (runAfter.None? ==> jobs[id].runAfter == old(jobs)[id].runAfter)
        && (runAfter.Some? ==> jobs[id].runAfter * SECOND <= runAfter.value < (jobs[id].runAfter + 1) * SECOND)
    {
      if id !in jobs || jobs[id].attempts != token || !jobs[id].status.JobProcessing? {
        return ErrStaleClaim;
      }
      var row := jobs[id].(status := status, lastError := cause);
      if runAfter.Some? {
        row := row.(runAfter := ToUnix(runAfter.value));
      }
      jobs := jobs[id := row];
      return Ok;
    }

    method SettleEpisodeTranscript(id: JobId, token: nat, episode: EpisodeId,
                                   transcript: Option<Transcript>, status: TranscriptStatus) returns (r: Outcome)
      modifies this`episodes, this`transcripts
      ensures (Tables(), r) == Tx.SettleEpisodeTranscript(old(Tables()), id, token, episode, transcript, status)
      ensures r == if !Claims(old(jobs), id, token, if status == TranscriptFailed && transcript == None then {JobProcessing, JobFailed} else {JobProcessing})
                   then ErrStaleClaim
                   else if transcript != None && episode !in old(episodes) then ErrConstraint else Ok
      ensures EpisodeWritten(old(Tables()), Tables(), r.Ok?, episode, transcript, status)
    {
      var accepted := {JobProcessing};
      if status.TranscriptFailed? && transcript.None? {
        accepted := {JobProcessing, JobFailed};
      }
      if id !in jobs || jobs[id].attempts != token || jobs[id].status !in accepted {
        return ErrStaleClaim;
      }
      if transcript.Some? {
        if episode !in episodes {
          return ErrConstraint;
        }
        transcripts := transcripts[episode := transcript.value];
      }
      if episode in episodes {
        episodes := episodes[episode := status];
      }
      return Ok;
    }

    method SettleAndCompleteJob(id: JobId, token: nat, episode: EpisodeId,
                                transcript: Option<Transcript>, status: TranscriptStatus) returns (r: Outcome)
      modifies this
      ensures (Tables(), r) == Tx.SettleAndCompleteJob(old(Tables()), id, token, episode, transcript, status)
      ensures r == if !Claims(old(jobs), id, token, {JobProcessing}) then ErrStaleClaim
                   else if transcript != None && episode !in old(episodes) then ErrConstraint else Ok
      ensures EpisodeWritten(old(Tables()), Tables(), r.Ok?, episode, transcript, status)
      ensures jobs == if r.Ok? then old(jobs)[id := old(jobs)[id].(status := JobDone, lastError := "")] else old(jobs)
    {
      if id !in jobs || jobs[id].attempts != token || !jobs[id].status.JobProcessing? {
        return ErrStaleClaim;
      }
      if transcript.Some? && episode !in episodes {
        return ErrConstraint; // the whole transaction rolls back, the completion included
      }
      jobs := jobs[id := jobs[id].(status := JobDone, lastError := "")];
      if transcript.Some? {
        transcripts := transcripts[episode := transcript.value];
      }
      if episode in episodes {
        episodes := episodes[episode := status];
      }
      return Ok;
    }

    method CountPendingJobs(now: int) returns (n: nat)
      ensures n == Tx.CountPendingJobs(Tables(), now)
      ensures n == |set id | id in jobs && Due(jobs[id], [], now)|
    {
      forall k | k in jobs ensures Runnable(jobs[k], [], now) <==> Due(jobs[k], [], now) {
        RunnableIsDue(jobs[k], [], now);
      }
      var due := RunnableJobs(jobs, [], now);
      assert due == set id | id in jobs && Due(jobs[id], [], now);
      n := |due|;
    }
  }

  // ---------------------------------------------------------------- draining the backlog

  // The queue after `claimed` has been handed out, in that order, from the rows `start`.
  ghost predicate HandedOut(start: map<JobId, Job>, jobs: map<JobId, Job>, claimed: seq<JobId>, now: int) {
    && jobs.Keys == start.Keys
    && Distinct(claimed)
    && (forall id | id in claimed :: id in start && Runnable(start[id], [], now) && !Runnable(jobs[id], [], now))
    && (forall id | id in start && id !in claimed :: jobs[id] == start[id])
    && InOrder(start, claimed, now)
  }

  // Claimed in queue order, and nothing due was passed over.
  ghost predicate InOrder(start: map<JobId, Job>, claimed: seq<JobId>, now: int)
    requires forall id | id in claimed :: id in start
  {
    forall i | 0 <= i < |claimed| ::
      && (forall j | i < j < |claimed| :: NotAfter(start[claimed[i]], start[claimed[j]]))
      && (forall id | id in start && id !in claimed && Runnable(start[id], [], now) :: NotAfter(start[claimed[i]], start[id]))
  }

  lemma HandOutNext(start: map<JobId, Job>, jobs: map<JobId, Job>, claimed: seq<JobId>, id: JobId, now: int, lease: int)
    requires HandedOut(start, jobs, claimed, now) && IsOldest(jobs, [], now, id) && lease > 0
    ensures HandedOut(start, jobs[id := Lease(jobs[id], now, lease)], claimed + [id], now)
  {
    assert id !in claimed && jobs[id] == start[id];
    var more := claimed + [id];
    assert forall k :: k in more <==> k in claimed || k == id;
    assert forall k | k in start && k !in more && Runnable(start[k], [], now) :: Runnable(jobs[k], [], now);
    forall i | 0 <= i < |more|
      ensures forall j | i < j < |more| :: NotAfter(start[more[i]], start[more[j]])
      ensures forall k | k in start && k !in more && Runnable(start[k], [], now) :: NotAfter(start[more[i]], start[k])
    {
      assert i < |claimed| ==> more[i] == claimed[i];
    }
  }

  // Claiming until nothing is left at one instant hands out every job the backlog gauge
  // counts, each once, in the order of the rows as they stood at the start.
  method Drain(store: JobStore, now: int, lease: int) returns (claimed: seq<JobId>)
    requires lease > 0
    modifies store`jobs
    ensures |claimed| == CountPendingJobs(old(store.Tables()), now)
    ensures forall id :: id in claimed <==> id in RunnableJobs(old(store.jobs), [], now)
    ensures HandedOut(old(store.jobs), store.jobs, claimed, now)
    ensures RunnableJobs(store.jobs, [], now) == {}
  {
    claimed := [];
    ghost var start := store.jobs;
    while true
      invariant HandedOut(start, store.jobs, claimed, now)
      decreases RunnableJobs(store.jobs, [], now)
    {
      ghost var before := store.jobs;
      var next := store.ClaimJob([], now, lease);
      if next.None? {
        break;
      }
      HandOutNext(start, before, claimed, next.value, now, lease);
      assert RunnableJobs(store.jobs, [], now) == RunnableJobs(before, [], now) - {next.value};
      claimed := claimed + [next.value];
    }
    forall id ensures id in claimed <==> id in RunnableJobs(start, [], now) {
      assert id !in RunnableJobs(store.jobs, [], now);
    }
    DistinctLength(claimed);
    assert Members(claimed) == RunnableJobs(start, [], now);
  }
}
