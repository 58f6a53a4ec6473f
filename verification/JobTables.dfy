/**
 The job queue, episode transcript status and transcript tables, and the store's
 transactions over them (store/sqlite/sqlite_jobs.go, store/sqlite/sqlite_crud.go). A job's
 `attempts` doubles as the fencing token of its current claim. Every transaction is a
 function on table values; the class in JobStore.dfy performs it in place.
 */
module JobTables {
  import opened Options
  import opened UnixTime

  type JobId = nat
  type EpisodeId = nat
  type Transcript = string

  datatype JobStatus = JobPending | JobProcessing | JobDone | JobFailed

  datatype TranscriptStatus =
    | TranscriptNone
    | TranscriptPending
    | TranscriptProcessing
    | TranscriptDone
    | TranscriptFailed

  // runAfter and createdAt are Unix seconds; `episode` is the decoded payload.
  datatype Job = Job(
    kind: string,
    episode: EpisodeId,
    status: JobStatus,
    attempts: nat,
    lastError: string,
    runAfter: int,
    createdAt: int)

  datatype Db = Db(
    episodes: map<EpisodeId, TranscriptStatus>,
    transcripts: map<EpisodeId, Transcript>,
    jobs: map<JobId, Job>)

  datatype Outcome =
    | Ok
    | ErrNotFound
    | ErrConflict
    | ErrStaleClaim
    | ErrConstraint // a transcript for an episode that is gone breaks the foreign key

  predicate Active(status: TranscriptStatus) {
    status.TranscriptPending? || status.TranscriptProcessing?
  }

  // ---------------------------------------------------------------- enqueue

  // The pending transition is the guard; id is the primary key of the new row.
  function EnqueueTranscriptionJob(db: Db, id: JobId, kind: string, episode: EpisodeId, now: int): (Db, Outcome) {
    if episode !in db.episodes then (db, ErrNotFound)
    else if Active(db.episodes[episode]) || id in db.jobs then (db, ErrConflict)
    else
      var job := Job(kind, episode, JobPending, 0, "", ToUnix(now), ToUnix(now));
      (db.(episodes := db.episodes[episode := TranscriptPending], jobs := db.jobs[id := job]), Ok)
  }

  // ---------------------------------------------------------------- claim

  // runnableJobPredicate with the kind filter; no kinds means no filter.
  predicate Runnable(job: Job, kinds: seq<string>, now: int) {
    && (job.status.JobPending? || job.status.JobProcessing?)
    && job.runAfter <= ToUnix(now)
    && (kinds == [] || job.kind in kinds)
  }

  // ORDER BY run_after, created_at.
  predicate NotAfter(a: Job, b: Job) {
    a.runAfter < b.runAfter || (a.runAfter == b.runAfter && a.createdAt <= b.createdAt)
  }

  // Ties are the database's choice.
  predicate IsOldest(jobs: map<JobId, Job>, kinds: seq<string>, now: int, id: JobId) {
    && id in jobs && Runnable(jobs[id], kinds, now)
    && forall k | k in jobs && Runnable(jobs[k], kinds, now) :: NotAfter(jobs[id], jobs[k])
  }

  function Lease(job: Job, now: int, lease: int): Job {
    job.(status := JobProcessing, attempts := job.attempts + 1, runAfter := ToUnixCeil(now + lease))
  }

  function ClaimJob(db: Db, id: JobId, now: int, lease: int): Db
    requires id in db.jobs
  {
    db.(jobs := db.jobs[id := Lease(db.jobs[id], now, lease)])
  }

  function RunnableJobs(jobs: map<JobId, Job>, kinds: seq<string>, now: int): set<JobId> {
    set id | id in jobs && Runnable(jobs[id], kinds, now)
  }

  function CountPendingJobs(db: Db, now: int): nat {
    |RunnableJobs(db.jobs, [], now)|
  }

  // ---------------------------------------------------------------- in plain terms

  // Waiting or leased out, its time has come, and of a wanted kind.
  predicate Due(job: Job, kinds: seq<string>, now: int) {
    && (job.status == JobPending || job.status == JobProcessing)
    && job.runAfter * SECOND <= now
    && (kinds == [] || exists i | 0 <= i < |kinds| :: kinds[i] == job.kind)
  }

  // A truncated clock has reached a stored second exactly when the true one has.
  lemma ReachedBy(s: int, now: int)
    ensures s <= ToUnix(now) <==> s * SECOND <= now
  {
  }

  lemma RunnableIsDue(job: Job, kinds: seq<string>, now: int)
    ensures Runnable(job, kinds, now) <==> Due(job, kinds, now)
  {
    ReachedBy(job.runAfter, now);
  }

  // ---------------------------------------------------------------- settlement

  // Only the current claim of a job in 'processing' may settle it.
  predicate HoldsClaim(db: Db, id: JobId, token: nat) {
    id in db.jobs && db.jobs[id].attempts == token && db.jobs[id].status.JobProcessing?
  }

  function SetJobStatus(db: Db, id: JobId, token: nat, status: JobStatus, cause: string, runAfter: Option<int>): (Db, Outcome) {
    if !HoldsClaim(db, id, token) then (db, ErrStaleClaim)
    else
      var job := db.jobs[id].(status := status, lastError := cause);
      var row := if runAfter.Some? then job.(runAfter := ToUnix(runAfter.value)) else job;
      (db.(jobs := db.jobs[id := row]), Ok)
  }

  function CompleteJob(db: Db, id: JobId, token: nat): (Db, Outcome) {
    SetJobStatus(db, id, token, JobDone, "", None)
  }

  function RescheduleJob(db: Db, id: JobId, token: nat, runAfter: int, cause: string): (Db, Outcome) {
    SetJobStatus(db, id, token, JobPending, cause, Some(runAfter))
  }

  function FailJob(db: Db, id: JobId, token: nat, cause: string): (Db, Outcome) {
    SetJobStatus(db, id, token, JobFailed, cause, None)
  }

  // saveTranscriptTx and setEpisodeStatusTx inside one transaction: an update of a missing
  // episode touches no row, an insert of its transcript breaks the foreign key.
  function WriteEpisode(db: Db, episode: EpisodeId, transcript: Option<Transcript>, status: TranscriptStatus): Db
    requires transcript.Some? ==> episode in db.episodes
  {
    var saved := if transcript.Some? then db.transcripts[episode := transcript.value] else db.transcripts;
    var marked := if episode in db.episodes then db.episodes[episode := status] else db.episodes;
    db.(transcripts := saved, episodes := marked)
  }

  // A failed job still lets its own attempt write the transcript-less failed mark.
  predicate MayMark(db: Db, id: JobId, token: nat, transcript: Option<Transcript>, status: TranscriptStatus) {
    || HoldsClaim(db, id, token)
    || (&& id in db.jobs && db.jobs[id].attempts == token && db.jobs[id].status.JobFailed?
        && status.TranscriptFailed? && transcript.None?)
  }

  function SettleEpisodeTranscript(db: Db, id: JobId, token: nat, episode: EpisodeId,
                                   transcript: Option<Transcript>, status: TranscriptStatus): (Db, Outcome)
  {
    if !MayMark(db, id, token, transcript, status) then (db, ErrStaleClaim)
    else if transcript.Some? && episode !in db.episodes then (db, ErrConstraint)
    else (WriteEpisode(db, episode, transcript, status), Ok)
  }

  function SettleAndCompleteJob(db: Db, id: JobId, token: nat, episode: EpisodeId,
                                transcript: Option<Transcript>, status: TranscriptStatus): (Db, Outcome)
  {
    if !HoldsClaim(db, id, token) then (db, ErrStaleClaim)
    else if transcript.Some? && episode !in db.episodes then (db, ErrConstraint)
    else
      (WriteEpisode(db.(jobs := db.jobs[id := db.jobs[id].(status := JobDone, lastError := "")]), episode, transcript, status), Ok)
  }

  // ---------------------------------------------------------------- episode rows

  function CreateEpisode(db: Db, id: EpisodeId): Db {
    db.(episodes := db.episodes[id := TranscriptNone])
  }

  // The transcript goes with its episode (ON DELETE CASCADE); jobs stay.
  function DeleteEpisode(db: Db, id: EpisodeId): Db {
    db.(episodes := db.episodes - {id}, transcripts := db.transcripts - {id})
  }
}
