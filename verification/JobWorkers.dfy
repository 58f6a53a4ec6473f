/**
 The worker and the queue in front of the store, as the code runs them from top to bottom
 (worker/worker.go, queue/dbqueue/dbqueue.go): each store call is shown to be one step of the
 protocol, so handling one job undisturbed is a stretch of a run, with the outcome stated.
 The transcriber's answer and the times are parameters.
 */
module JobWorkers {
  import opened Options
  import opened UnixTime
  import opened Backoff
  import opened JobTables
  import opened JobStorage
  import opened JobProtocol
  import opened JobSafety

  // What Dequeue hands to the worker.
  datatype Claimed = Claimed(id: JobId, token: nat, episode: EpisodeId)

  datatype Work = WorkError | Unsupported | Produced(transcript: Transcript)

  datatype Handled = HandleError | NothingToSettle | ToSettle(transcript: Option<Transcript>)

  function HandledAs(work: Work): Handled {
    match work
    case WorkError => HandleError
    case Unsupported => ToSettle(None)
    case Produced(t) => ToSettle(Some(t))
  }

  predicate Ended(db: Db, job: Claimed, status: JobStatus, mark: TranscriptStatus) {
    && job.id in db.jobs && db.jobs[job.id].status == status
    && (job.episode in db.episodes ==> db.episodes[job.episode] == mark)
  }

  // Other jobs and other episodes are as they were; transcripts too, unless one was produced.
  ghost predicate OnlyThis(before: Db, after: Db, job: Claimed) {
    && after.jobs.Keys == before.jobs.Keys && after.episodes.Keys == before.episodes.Keys
    && (forall k | k in before.jobs && k != job.id :: after.jobs[k] == before.jobs[k])
    && (forall e | e in before.episodes && e != job.episode :: after.episodes[e] == before.episodes[e])
    && after.transcripts - {job.episode} == before.transcripts - {job.episode}
  }

  lemma OnlyThisOn(a: Db, b: Db, c: Db, job: Claimed)
    requires OnlyThis(a, b, job) && OnlyThis(b, c, job)
    ensures OnlyThis(a, c, job)
  {
  }

  // What handling a job undisturbed leaves behind.
  ghost predicate OutcomeOf(q: Queue, was: Db, job: Claimed, work: Work, later: int, db: Db) {
    if job.token > q.maxAttempts then Ended(db, job, JobFailed, TranscriptFailed)
    else if job.episode !in was.episodes then Ended(db, job, JobDone, TranscriptNone)
    else match work
      case Produced(t) => Ended(db, job, JobDone, TranscriptDone) && job.episode in db.transcripts && db.transcripts[job.episode] == t
      case Unsupported => Ended(db, job, JobDone, TranscriptNone)
      case WorkError =>
        if job.token >= q.maxAttempts then Ended(db, job, JobFailed, TranscriptFailed)
        else
          && Ended(db, job, JobPending, TranscriptProcessing)
          && db.jobs[job.id].runAfter == ToUnix(later + DefaultBackoff(job.token))
  }

  class Worker {
    const store: JobStore
    const queue: Queue
    const me: WorkerId
    ghost var trace: Run

    ghost predicate Valid()
      reads this, store
    {
      IsRun(queue, trace) && Now().db == store.Tables()
    }

    ghost function Now(): System
      reads this
      requires trace.states != []
    {
      Last(trace)
    }

    ghost predicate Idle()
      reads this
      requires trace.states != []
    {
      me !in Now().workers
    }

    ghost predicate Stands(phase: Phase, job: Claimed)
      reads this
      requires trace.states != []
    {
      me in Now().workers && Now().workers[me] == JobProtocol.Worker(phase, job.id, job.token, job.episode)
    }

    constructor (store: JobStore, queue: Queue, me: WorkerId, ghost trace: Run)
      requires IsRun(queue, trace) && Last(trace).db == store.Tables() && me !in Last(trace).workers
      ensures Valid() && Idle() && this.store == store && this.queue == queue && this.trace == trace
    {
      this.store, this.queue, this.me, this.trace := store, queue, me, trace;
    }

    ghost method Took(a: Action, s': System)
      requires IsRun(queue, trace) && Step(queue, Now(), a, s')
      modifies this`trace
      ensures IsRun(queue, trace) && Now() == s'
    {
      trace := Extend(queue, trace, a, s');
    }

    // ---------------------------------------------------------------- the queue

    method Dequeue(now: int) returns (job: Option<Claimed>, deadLettered: bool)
      requires Valid() && Idle()
      modifies this`trace, store`jobs
      ensures Valid()
      ensures job.None? <==> RunnableJobs(old(store.jobs), [TRANSCRIBE], now) == {}
      ensures job.None? ==> Idle() && store.jobs == old(store.jobs)
      ensures job.Some? ==>
        && Stands(if deadLettered then MarkDue else Running, job.value)
        && deadLettered == (job.value.token > queue.maxAttempts)
        && TakenFirst(old(store.jobs), [TRANSCRIBE], now, job.value.id)
        && job.value.token == old(store.jobs)[job.value.id].attempts + 1
        && job.value.episode == old(store.jobs)[job.value.id].episode
        && OnlyThis(old(store.Tables()), store.Tables(), job.value)
        && job.value.id in store.jobs && store.jobs[job.value.id].attempts == job.value.token
        && store.jobs[job.value.id].status == if deadLettered then JobFailed else JobProcessing
      ensures job.Some? && !deadLettered ==> LeasedOnly(old(store.jobs), store.jobs, job.value.id, now, queue.lease)
      ensures job.Some? && deadLettered ==> store.jobs[job.value.id].lastError == "dbqueue: exceeded max attempts"
    {
      var id := store.ClaimJob([TRANSCRIBE], now, queue.lease);
      if id.None? {
        return None, false;
      }
      var row := store.jobs[id.value];
      var claimed := Claimed(id.value, row.attempts, row.episode);
      job, deadLettered := Some(claimed), claimed.token > queue.maxAttempts;
      Took(Claim(me, claimed.id, now),
           Now().(db := store.Tables(),
                  workers := Now().workers[me := JobProtocol.Worker(if deadLettered then Poisoned else Running, claimed.id, claimed.token, claimed.episode)]));
      if deadLettered {
        var r := store.SetJobStatus(claimed.id, claimed.token, JobFailed, "dbqueue: exceeded max attempts", None);
        Took(DeadLetter(me), Goto(Now().(db := store.Tables()), me, MarkDue));
      }
    }

    // A stale claim is no error: another attempt owns the job.
    method Ack(job: Claimed)
      requires Valid() && Stands(EpisodeGone, job)
      modifies this`trace, store`jobs
      ensures Valid() && Idle()
      ensures if HoldsClaim(old(store.Tables()), job.id, job.token)
        then store.jobs == old(store.jobs)[job.id := old(store.jobs)[job.id].(status := JobDone, lastError := "")]
        else store.jobs == old(store.jobs)
    {
      var r := store.SetJobStatus(job.id, job.token, JobDone, "", None);
      Took(Acknowledge(me), Done(Now().(db := store.Tables()), me));
    }

    method Nack(job: Claimed, cause: string, now: int) returns (dead: bool)
      requires Valid() && Stands(Failing, job)
      modifies this`trace, store`jobs
      ensures Valid() && if dead then Stands(MarkDue, job) else Idle()
      ensures OnlyThis(old(store.Tables()), store.Tables(), job)
      ensures dead <==> HoldsClaim(old(store.Tables()), job.id, job.token) && job.token >= queue.maxAttempts
      ensures dead ==> job.id in store.jobs && store.jobs[job.id].status == JobFailed && store.jobs[job.id].attempts == job.token
      ensures !HoldsClaim(old(store.Tables()), job.id, job.token) ==> store.jobs == old(store.jobs)
      ensures HoldsClaim(old(store.Tables()), job.id, job.token) ==> job.id in store.jobs && store.jobs[job.id].lastError == cause
      ensures HoldsClaim(old(store.Tables()), job.id, job.token) && !dead ==>
        && job.id in store.jobs && store.jobs[job.id].status == JobPending
        && store.jobs[job.id].runAfter == ToUnix(now + DefaultBackoff(job.token))
    {
      ghost var before := Now();
      var r;
      var runAfter := now + DefaultBackoff(job.token);
      if job.token >= queue.maxAttempts {
        r := store.SetJobStatus(job.id, job.token, JobFailed, cause, None);
        dead := r.Ok?;
        Took(JobProtocol.Nack(me, runAfter, cause), FailThenMark(before, me, cause));
      } else {
        r := store.SetJobStatus(job.id, job.token, JobPending, cause, Some(runAfter));
        dead := false;
        Took(JobProtocol.Nack(me, runAfter, cause), Done(before.(db := store.Tables()), me));
      }
    }

    // ---------------------------------------------------------------- the worker

    method MarkTranscriptFailed(job: Claimed)
      requires Valid() && Stands(MarkDue, job)
      modifies this`trace, store`episodes, store`transcripts
      ensures Valid() && Idle()
      ensures OnlyThis(old(store.Tables()), store.Tables(), job) && store.transcripts == old(store.transcripts)
      ensures job.id in store.jobs && store.jobs[job.id].status == JobFailed && store.jobs[job.id].attempts == job.token
        ==> Ended(store.Tables(), job, JobFailed, TranscriptFailed)
    {
      ghost var before := Now();
      var r := store.SettleEpisodeTranscript(job.id, job.token, job.episode, None, TranscriptFailed);
      Took(MarkFailed(me),
           Done(before.(db := store.Tables(), marked := if r.Ok? then before.marked + {job.id} else before.marked), me));
    }

    method Fail(job: Claimed, cause: string, now: int)
      requires Valid() && Stands(Failing, job)
      modifies this`trace, store
      ensures Valid() && Idle()
      ensures OnlyThis(old(store.Tables()), store.Tables(), job) && store.transcripts == old(store.transcripts)
      ensures !HoldsClaim(old(store.Tables()), job.id, job.token) ==> store.Tables() == old(store.Tables())
      ensures HoldsClaim(old(store.Tables()), job.id, job.token) ==>
        if job.token >= queue.maxAttempts then Ended(store.Tables(), job, JobFailed, TranscriptFailed)
        else
          && store.episodes == old(store.episodes)
          && job.id in store.jobs && store.jobs[job.id].status == JobPending
          && store.jobs[job.id].runAfter == ToUnix(now + DefaultBackoff(job.token))
    {
      var dead := Nack(job, cause, now);
      if dead {
        ghost var failed := store.Tables();
        MarkTranscriptFailed(job);
        OnlyThisOn(old(store.Tables()), failed, store.Tables(), job);
      }
    }

    // The episode is looked up and marked processing before the transcriber runs.
    method Transcribe(job: Claimed, work: Work) returns (r: Handled)
      requires Valid() && Stands(Running, job)
      modifies this`trace, store`episodes, store`transcripts
      ensures Valid()
      ensures Stands(if r.HandleError? then Failing else if r.NothingToSettle? then EpisodeGone else Transcribing, job)
      ensures store.episodes.Keys == old(store.episodes.Keys)
      ensures r.NothingToSettle? <==> job.episode !in store.episodes
      ensures job.episode in store.episodes ==>
        && r == HandledAs(work)
        && (HoldsClaim(old(store.Tables()), job.id, job.token) ==> store.episodes[job.episode] == TranscriptProcessing)
      ensures OnlyThis(old(store.Tables()), store.Tables(), job) && store.transcripts == old(store.transcripts)
    {
      if job.episode !in store.episodes {
        Took(LookUp(me), Goto(Now(), me, EpisodeGone));
        return NothingToSettle;
      }
      Took(LookUp(me), Goto(Now(), me, Transcribing));
      var marked := store.SettleEpisodeTranscript(job.id, job.token, job.episode, None, TranscriptProcessing);
      Took(MarkProgress(me), Now().(db := store.Tables()));
      match work
      case WorkError =>
        Took(WorkFails(me), Goto(Now(), me, Failing));
        return HandleError;
      case Unsupported => return ToSettle(None);
      case Produced(t) => return ToSettle(Some(t));
    }

    // failed: the outcome was not recorded, and the job is to be tried again.
    method SettleAndComplete(job: Claimed, transcript: Option<Transcript>) returns (committed: bool, failed: bool)
      requires Valid() && Stands(Transcribing, job)
      modifies this`trace, store
      ensures Valid() && if failed then Stands(Failing, job) else Idle()
      ensures OnlyThis(old(store.Tables()), store.Tables(), job)
      ensures transcript.None? ==> store.transcripts == old(store.transcripts)
      ensures HoldsClaim(old(store.Tables()), job.id, job.token) && job.episode in old(store.episodes) ==>
        && committed && !failed
        && Ended(store.Tables(), job, JobDone, if transcript.Some? then TranscriptDone else TranscriptNone)
        && (transcript.Some? ==> job.episode in store.transcripts && store.transcripts[job.episode] == transcript.value)
      ensures !committed ==> store.Tables() == old(store.Tables())
    {
      var status := if transcript.Some? then TranscriptDone else TranscriptNone;
      ghost var before := Now();
      var r := store.SettleAndCompleteJob(job.id, job.token, job.episode, transcript, status);
      committed, failed := r.Ok?, !r.Ok? && !r.ErrStaleClaim?;
      Took(Settle(me, transcript, true),
           if failed then Goto(before.(db := store.Tables()), me, Failing) else Done(before.(db := store.Tables()), me));
    }

    method Finish(job: Claimed, handled: Handled, later: int)
      requires Valid()
      requires Stands(if handled.HandleError? then Failing else if handled.NothingToSettle? then EpisodeGone else Transcribing, job)
      modifies this`trace, store
      ensures Valid() && Idle()
      ensures OnlyThis(old(store.Tables()), store.Tables(), job)
      ensures !(handled.ToSettle? && handled.transcript.Some?) ==> store.transcripts == old(store.transcripts)
      ensures HoldsClaim(old(store.Tables()), job.id, job.token) && handled.HandleError? ==>
        if job.token >= queue.maxAttempts then Ended(store.Tables(), job, JobFailed, TranscriptFailed)
        else
          && store.episodes == old(store.episodes) && job.id in store.jobs && store.jobs[job.id].status == JobPending
          && store.jobs[job.id].runAfter == ToUnix(later + DefaultBackoff(job.token))
      ensures HoldsClaim(old(store.Tables()), job.id, job.token) && handled.NothingToSettle? ==>
        store.episodes == old(store.episodes) && job.id in store.jobs && store.jobs[job.id].status == JobDone
      ensures HoldsClaim(old(store.Tables()), job.id, job.token) && handled.ToSettle? && job.episode in old(store.episodes) ==>
        && Ended(store.Tables(), job, JobDone, if handled.transcript.Some? then TranscriptDone else TranscriptNone)
        && (handled.transcript.Some? ==> job.episode in store.transcripts && store.transcripts[job.episode] == handled.transcript.value)
    {
      match handled
      case HandleError => Fail(job, "worker", later);
      case NothingToSettle => Ack(job);
      case ToSettle(transcript) =>
        var committed, failed := SettleAndComplete(job, transcript);
        if failed {
          ghost var unsettled := store.Tables();
          Fail(job, "worker: settle", later);
          OnlyThisOn(old(store.Tables()), unsettled, store.Tables(), job);
        }
    }

    // What Dequeue handed over, to its end.
    method HandleClaimed(job: Claimed, deadLettered: bool, later: int, work: Work)
      requires Valid() && Stands(if deadLettered then MarkDue else Running, job)
      requires deadLettered == (job.token > queue.maxAttempts)
      requires job.id in store.jobs && store.jobs[job.id].attempts == job.token
      requires store.jobs[job.id].status == if deadLettered then JobFailed else JobProcessing
      modifies this`trace, store
      ensures Valid() && Idle()
      ensures OutcomeOf(queue, old(store.Tables()), job, work, later, store.Tables())
      ensures OnlyThis(old(store.Tables()), store.Tables(), job)
      ensures !work.Produced? ==> store.transcripts == old(store.transcripts)
    {
      if deadLettered {
        MarkTranscriptFailed(job);
      } else {
        var handled := Transcribe(job, work);
        ghost var ran := store.Tables();
        Finish(job, handled, later);
        OnlyThisOn(old(store.Tables()), ran, store.Tables(), job);
      }
    }

    // One claimed job from Dequeue to its terminal bookkeeping. `later` is when it ends.
    method ProcessOne(now: int, later: int, work: Work) returns (job: Option<Claimed>)
      requires Valid() && Idle()
      modifies this`trace, store
      ensures Valid() && Idle() && Coupled(Now())
      ensures job.None? <==> RunnableJobs(old(store.jobs), [TRANSCRIBE], now) == {}
      ensures job.Some? ==> OutcomeOf(queue, old(store.Tables()), job.value, work, later, store.Tables())
      ensures job.Some? ==>
        && TakenFirst(old(store.jobs), [TRANSCRIBE], now, job.value.id)
        && job.value.token == old(store.jobs)[job.value.id].attempts + 1
        && job.value.episode == old(store.jobs)[job.value.id].episode
        && OnlyThis(old(store.Tables()), store.Tables(), job.value)
        && (!work.Produced? ==> store.transcripts == old(store.transcripts))
      ensures job.None? ==> store.Tables() == old(store.Tables())
    {
      var deadLettered;
      job, deadLettered := Dequeue(now);
      if job.Some? {
        ghost var claimed := store.Tables();
        HandleClaimed(job.value, deadLettered, later, work);
        OnlyThisOn(old(store.Tables()), claimed, store.Tables(), job.value);
      }
      RunKeepsInv(queue, trace, |trace.states| - 1);
    }
  }
}
