/**
 Transcription workers, re-transcribe requests and episode deletes running concurrently over
 the job tables. A step is one committed store transaction or one outcome of the work between
 them. Any number of workers run; a worker may be far behind its lease, holding a claim that
 others have since taken over, and may vanish at any point.
 */
module JobProtocol {
  import opened Options
  import opened JobTables

  type WorkerId = nat

  const TRANSCRIBE := "transcribe"

  datatype Queue = Queue(maxAttempts: int, lease: int)

  // Where a worker stands with the claim (job, token) it was handed.
  datatype Phase =
    | Poisoned      // claimed past the attempt limit: dead-letter it
    | Running       // claimed to run, episode not looked up yet
    | Transcribing  // the episode was there
    | EpisodeGone   // the episode was not there: acknowledge and forget
    | Failing       // the work failed: Nack
    | MarkDue       // its FailJob committed: the episode's failed mark comes next

  datatype Worker = Worker(phase: Phase, job: JobId, token: nat, episode: EpisodeId)

  // `used` and `marked` are history: every episode id ever created, and every failed job
  // whose episode mark has been written.
  datatype System = System(db: Db, workers: map<WorkerId, Worker>, used: set<EpisodeId>, marked: set<JobId>)

  datatype Action =
    | NewEpisode(id: EpisodeId)
    | DropEpisode(id: EpisodeId)
    | Enqueue(id: JobId, on: EpisodeId, now: int)
    | Claim(w: WorkerId, id: JobId, now: int)
    | DeadLetter(w: WorkerId)
    | LookUp(w: WorkerId)
    | MarkProgress(w: WorkerId)
    | WorkFails(w: WorkerId)
    | Settle(w: WorkerId, transcript: Option<Transcript>, reported: bool)
    | Acknowledge(w: WorkerId)
    | Nack(w: WorkerId, runAfter: int, cause: string)
    | MarkFailed(w: WorkerId)
    | Vanish(w: WorkerId)

  ghost predicate Init(s: System) {
    && s.db.jobs == map[] && s.workers == map[] && s.marked == {}
    && (forall e | e in s.db.episodes :: e in s.used && !Active(s.db.episodes[e]))
    && (forall e | e in s.db.transcripts :: e in s.db.episodes)
  }

  function Goto(s: System, w: WorkerId, phase: Phase): System
    requires w in s.workers
  {
    s.(workers := s.workers[w := s.workers[w].(phase := phase)])
  }

  function Done(s: System, w: WorkerId): System {
    s.(workers := s.workers - {w})
  }

  // FailJob, then the mark if it took: Dequeue's dead letter and Nack at the limit.
  function FailThenMark(s: System, w: WorkerId, cause: string): System
    requires w in s.workers
  {
    var me := s.workers[w];
    var r := FailJob(s.db, me.job, me.token, cause);
    if r.1.Ok? then Goto(s.(db := r.0), w, MarkDue) else Done(s, w)
  }

  ghost predicate Step(q: Queue, s: System, a: Action, s': System) {
    match a
    case NewEpisode(id) =>
      id !in s.used && s' == s.(db := CreateEpisode(s.db, id), used := s.used + {id})
    case DropEpisode(id) =>
      s' == s.(db := DeleteEpisode(s.db, id))
    case Enqueue(id, on, now) =>
      s' == s.(db := EnqueueTranscriptionJob(s.db, id, TRANSCRIBE, on, now).0)
    case Claim(w, id, now) =>
      && w !in s.workers && IsOldest(s.db.jobs, [TRANSCRIBE], now, id)
      && var db := ClaimJob(s.db, id, now, q.lease);
         var token := db.jobs[id].attempts;
         s' == s.(db := db,
                  workers := s.workers[w := Worker(if token > q.maxAttempts then Poisoned else Running, id, token, db.jobs[id].episode)])
    case _ =>
      a.w in s.workers && WorkerStep(q, s, a, s.workers[a.w], s')
  }

  ghost predicate WorkerStep(q: Queue, s: System, a: Action, me: Worker, s': System)
    requires !a.NewEpisode? && !a.DropEpisode? && !a.Enqueue? && !a.Claim?
    requires a.w in s.workers && s.workers[a.w] == me
  {
    match a
    case DeadLetter(w) =>
      me.phase.Poisoned? && s' == FailThenMark(s, w, "dbqueue: exceeded max attempts")
    case LookUp(w) =>
      me.phase.Running? && s' == Goto(s, w, if me.episode in s.db.episodes then Transcribing else EpisodeGone)
    case MarkProgress(w) =>
      && me.phase.Transcribing?
      && s' == s.(db := SettleEpisodeTranscript(s.db, me.job, me.token, me.episode, None, TranscriptProcessing).0)
    case WorkFails(w) =>
      (me.phase.Running? || me.phase.Transcribing?) && s' == Goto(s, w, Failing)
    case Settle(w, transcript, reported) =>
      // a commit may still be reported as an error, and is then followed by a Nack
      && me.phase.Transcribing?
      && var r := SettleAndCompleteJob(s.db, me.job, me.token, me.episode, transcript,
                                       if transcript.Some? then TranscriptDone else TranscriptNone);
         s' == if r.1.ErrStaleClaim? || (r.1.Ok? && reported) then Done(s.(db := r.0), w) else Goto(s.(db := r.0), w, Failing)
    case Acknowledge(w) =>
      me.phase.EpisodeGone? && s' == Done(s.(db := CompleteJob(s.db, me.job, me.token).0), w)
    case Nack(w, runAfter, cause) =>
      && me.phase.Failing?
      && s' == if me.token >= q.maxAttempts then FailThenMark(s, w, cause)
               else Done(s.(db := RescheduleJob(s.db, me.job, me.token, runAfter, cause).0), w)
    case MarkFailed(w) =>
      && me.phase.MarkDue?
      && var r := SettleEpisodeTranscript(s.db, me.job, me.token, me.episode, None, TranscriptFailed);
         s' == Done(s.(db := r.0, marked := if r.1.Ok? then s.marked + {me.job} else s.marked), w)
    case Vanish(w) =>
      s' == Done(s, w)
  }

  datatype Run = Run(states: seq<System>, actions: seq<Action>)

  ghost predicate IsRun(q: Queue, r: Run) {
    && |r.states| == |r.actions| + 1
    && Init(r.states[0])
    && forall i | 0 <= i < |r.actions| :: Step(q, r.states[i], r.actions[i], r.states[i + 1])
  }

  function Last(r: Run): System
    requires r.states != []
  {
    r.states[|r.states| - 1]
  }

  lemma Extend(q: Queue, r: Run, a: Action, s': System) returns (longer: Run)
    requires IsRun(q, r) && Step(q, Last(r), a, s')
    ensures IsRun(q, longer) && Last(longer) == s' && longer == Run(r.states + [s'], r.actions + [a])
  {
    longer := Run(r.states + [s'], r.actions + [a]);
  }

  // ---------------------------------------------------------------- coupling

  // A job that still owes its episode an outcome: live, or failed with the mark unwritten.
  predicate Owing(s: System, j: JobId) {
    && j in s.db.jobs
    && (s.db.jobs[j].status.JobPending? || s.db.jobs[j].status.JobProcessing?
        || (s.db.jobs[j].status.JobFailed? && j !in s.marked))
  }

  predicate Owes(s: System, j: JobId, e: EpisodeId) {
    Owing(s, j) && s.db.jobs[j].episode == e
  }

  // An episode is pending or processing exactly when one job owes it an outcome, and then
  // exactly one does.
  ghost predicate Coupled(s: System) {
    && (forall e | e in s.db.episodes && Active(s.db.episodes[e]) :: exists j :: Owes(s, j, e))
    && (forall j, e | Owes(s, j, e) && e in s.db.episodes :: Active(s.db.episodes[e]))
    && (forall j, k, e | Owes(s, j, e) && Owes(s, k, e) && e in s.db.episodes :: j == k)
  }
}
