/**
 What the fencing token gives over whole runs: settlements that happened once stay, stale
 attempts change nothing, attempts are bounded, and leases are honoured.
 */
module JobHistory {
  import opened Options
  import opened UnixTime
  import opened JobTables
  import opened JobProtocol
  import opened JobSafety

  // A step taken by a worker that already holds a claim.
  predicate ByAttempt(a: Action) {
    !a.NewEpisode? && !a.DropEpisode? && !a.Enqueue? && !a.Claim?
  }

  // ---------------------------------------------------------------- fencing

  // An attempt that lost its claim leaves every table as it is, whatever it tries.
  lemma StaleAttemptChangesNothing(q: Queue, s: System, a: Action, s': System)
    requires Step(q, s, a, s') && ByAttempt(a)
    requires !HoldsClaim(s.db, s.workers[a.w].job, s.workers[a.w].token) && !s.workers[a.w].phase.MarkDue?
    ensures s'.db == s.db && s'.marked == s.marked
  {
    assert WorkerStep(q, s, a, s.workers[a.w], s');
  }

  // What any step may do to one job's row.
  lemma RowStep(q: Queue, s: System, a: Action, s': System, j: JobId)
    requires Step(q, s, a, s') && j in s.db.jobs
    ensures j in s'.db.jobs
    ensures var row, row' := s.db.jobs[j], s'.db.jobs[j];
      if a.Claim? && a.id == j then Runnable(row, [TRANSCRIBE], a.now) && row' == Lease(row, a.now, q.lease)
      else if ByAttempt(a) && s.workers[a.w].job == j && HoldsClaim(s.db, j, s.workers[a.w].token) && row' != row then
        row'.attempts == row.attempts && !row'.status.JobProcessing?
        && (row'.status.JobPending? ==> a.Nack? && row'.runAfter == ToUnix(a.runAfter))
        && (!row'.status.JobPending? ==> row'.runAfter == row.runAfter)
      else row' == row
  {
    if ByAttempt(a) {
      assert WorkerStep(q, s, a, s.workers[a.w], s');
    }
  }

  // Attempts never decrease, and done and failed are final.
  lemma {:induction false} TerminalIsFinal(q: Queue, r: Run, i: nat, k: nat, j: JobId)
    requires IsRun(q, r) && i <= k < |r.states| && j in r.states[i].db.jobs
    ensures j in r.states[k].db.jobs
    ensures r.states[i].db.jobs[j].attempts <= r.states[k].db.jobs[j].attempts
    ensures r.states[i].db.jobs[j].status in {JobDone, JobFailed} ==> r.states[k].db.jobs[j] == r.states[i].db.jobs[j]
  {
    if i == k {
    } else {
      TerminalIsFinal(q, r, i, k - 1, j);
      RowStep(q, r.states[k - 1], r.actions[k - 1], r.states[k], j);
    }
  }

  // ---------------------------------------------------------------- settle once

  // The step is a settlement of job j by the attempt with this token that took effect.
  ghost predicate Settles(s: System, a: Action, s': System, j: JobId, token: nat) {
    && ByAttempt(a) && a.w in s.workers && s.workers[a.w].job == j && s.workers[a.w].token == token
    && s'.db.jobs != s.db.jobs
  }

  ghost predicate Spent(s: System, j: JobId, token: nat) {
    j in s.db.jobs && (s.db.jobs[j].attempts > token || (s.db.jobs[j].attempts == token && !s.db.jobs[j].status.JobProcessing?))
  }

  lemma SettlingSpends(q: Queue, s: System, a: Action, s': System, j: JobId, token: nat)
    requires Step(q, s, a, s') && Settles(s, a, s', j, token)
    ensures HoldsClaim(s.db, j, token) && Spent(s', j, token)
  {
    assert WorkerStep(q, s, a, s.workers[a.w], s');
    RowStep(q, s, a, s', j);
  }

  lemma {:induction false} SpentStays(q: Queue, r: Run, i: nat, k: nat, j: JobId, token: nat)
    requires IsRun(q, r) && i <= k < |r.states| && Spent(r.states[i], j, token)
    ensures Spent(r.states[k], j, token)
  {
    if i == k {
    } else {
      SpentStays(q, r, i, k - 1, j, token);
      RowStep(q, r.states[k - 1], r.actions[k - 1], r.states[k], j);
    }
  }

  // Of all complete, reschedule, fail and settle-and-complete calls that one claim of one
  // job ever makes, at most one takes effect.
  lemma SettledAtMostOnce(q: Queue, r: Run, i: nat, k: nat, j: JobId, token: nat)
    requires IsRun(q, r) && i < k < |r.actions|
    requires Settles(r.states[i], r.actions[i], r.states[i + 1], j, token)
    ensures !Settles(r.states[k], r.actions[k], r.states[k + 1], j, token)
  {
    SettlingSpends(q, r.states[i], r.actions[i], r.states[i + 1], j, token);
    SpentStays(q, r, i + 1, k, j, token);
    if Settles(r.states[k], r.actions[k], r.states[k + 1], j, token) {
      SettlingSpends(q, r.states[k], r.actions[k], r.states[k + 1], j, token);
    }
  }

  // ---------------------------------------------------------------- no downgrade

  function TranscriptOf(s: System, e: EpisodeId): Option<Transcript> {
    if e in s.db.transcripts then Some(s.db.transcripts[e]) else None
  }

  predicate Reopens(a: Action, e: EpisodeId) {
    (a.Enqueue? && a.on == e) || (a.DropEpisode? && a.id == e)
  }

  lemma SettledEpisodeStep(q: Queue, s: System, a: Action, s': System, e: EpisodeId)
    requires Inv(s) && Step(q, s, a, s') && !Reopens(a, e)
    requires e in s.db.episodes && !Active(s.db.episodes[e])
    ensures e in s'.db.episodes && s'.db.episodes[e] == s.db.episodes[e] && TranscriptOf(s', e) == TranscriptOf(s, e)
  {
    if ByAttempt(a) {
      var me := s.workers[a.w];
      assert WorkerStep(q, s, a, me, s');
      assert WorkerOk(s, me);
      if HoldsClaim(s.db, me.job, me.token) || me.phase.MarkDue? {
        assert Owes(s, me.job, me.episode);
        assert me.episode != e;
      }
    }
  }

  // Once none, done or failed, an episode's status and transcript are out of every
  // worker's reach until it is enqueued again or deleted.
  lemma {:induction false} SettledEpisodeFrozen(q: Queue, r: Run, i: nat, k: nat, e: EpisodeId)
    requires IsRun(q, r) && i <= k < |r.states|
    requires e in r.states[i].db.episodes && !Active(r.states[i].db.episodes[e])
    requires forall n | i <= n < k :: !Reopens(r.actions[n], e)
    ensures e in r.states[k].db.episodes && r.states[k].db.episodes[e] == r.states[i].db.episodes[e]
    ensures TranscriptOf(r.states[k], e) == TranscriptOf(r.states[i], e)
  {
    if i == k {
    } else {
      SettledEpisodeFrozen(q, r, i, k - 1, e);
      RunKeepsInv(q, r, k - 1);
      SettledEpisodeStep(q, r.states[k - 1], r.actions[k - 1], r.states[k], e);
    }
  }

  // A committed result: from then on the job never changes, and the episode stays done with
  // that very transcript until a new enqueue or its deletion.
  lemma CommittedResultStays(q: Queue, r: Run, i: nat, k: nat, transcript: Transcript)
    requires IsRun(q, r) && i < k < |r.states|
    requires r.actions[i].Settle? && r.actions[i].transcript == Some(transcript)
    requires r.actions[i].w in r.states[i].workers
    requires var s, me := r.states[i], r.states[i].workers[r.actions[i].w];
      && HoldsClaim(s.db, me.job, me.token) && me.episode in s.db.episodes
      && (forall n | i < n < k :: !Reopens(r.actions[n], me.episode))
    ensures var me := r.states[i].workers[r.actions[i].w];
      && me.episode in r.states[k].db.episodes && r.states[k].db.episodes[me.episode] == TranscriptDone
      && TranscriptOf(r.states[k], me.episode) == Some(transcript)
      && me.job in r.states[k].db.jobs && r.states[k].db.jobs[me.job] == r.states[i + 1].db.jobs[me.job]
      && r.states[k].db.jobs[me.job].status == JobDone
  {
    var s, me := r.states[i], r.states[i].workers[r.actions[i].w];
    assert Step(q, s, r.actions[i], r.states[i + 1]);
    assert WorkerStep(q, s, r.actions[i], me, r.states[i + 1]);
    SettledEpisodeFrozen(q, r, i + 1, k, me.episode);
    TerminalIsFinal(q, r, i + 1, k, me.job);
  }

  // A result for episode e goes in: a settlement with a transcript, by the current claim.
  predicate Delivers(s: System, a: Action, e: EpisodeId) {
    && a.Settle? && a.transcript.Some? && a.w in s.workers && s.workers[a.w].episode == e
    && HoldsClaim(s.db, s.workers[a.w].job, s.workers[a.w].token)
  }

  lemma TranscriptStep(q: Queue, s: System, a: Action, s': System, e: EpisodeId)
    requires Step(q, s, a, s') && !Delivers(s, a, e) && a != DropEpisode(e)
    ensures TranscriptOf(s', e) == TranscriptOf(s, e)
  {
    if ByAttempt(a) {
      assert WorkerStep(q, s, a, s.workers[a.w], s');
    }
  }

  // Step n brings a result for episode e or deletes it.
  predicate Rewrites(r: Run, n: nat, e: EpisodeId)
    requires n < |r.actions| && |r.states| == |r.actions| + 1
  {
    Delivers(r.states[n], r.actions[n], e) || r.actions[n] == DropEpisode(e)
  }

  lemma TranscriptStepAt(q: Queue, r: Run, n: nat, e: EpisodeId)
    requires IsRun(q, r) && n < |r.actions| && !Rewrites(r, n, e)
    ensures TranscriptOf(r.states[n + 1], e) == TranscriptOf(r.states[n], e)
  {
    TranscriptStep(q, r.states[n], r.actions[n], r.states[n + 1], e);
  }

  // A transcript is replaced by a new result and goes with its episode; enqueueing, claims,
  // progress marks, failures and settlements without a result all leave it as it is.
  lemma {:induction false} TranscriptKept(q: Queue, r: Run, i: nat, k: nat, e: EpisodeId)
    requires IsRun(q, r) && i <= k < |r.states| && forall n | i <= n < k :: !Rewrites(r, n, e)
    ensures TranscriptOf(r.states[k], e) == TranscriptOf(r.states[i], e)
  {
    if i == k {
    } else {
      TranscriptKept(q, r, i, k - 1, e);
      TranscriptStepAt(q, r, k - 1, e);
    }
  }

  // A new episode has neither status nor transcript until it is enqueued.
  lemma NewEpisodeIsBlank(q: Queue, r: Run, i: nat, k: nat, e: EpisodeId)
    requires IsRun(q, r) && i < k < |r.states| && r.actions[i] == NewEpisode(e)
    requires forall n | i < n < k :: !Reopens(r.actions[n], e)
    ensures e in r.states[k].db.episodes && r.states[k].db.episodes[e] == TranscriptNone
    ensures e !in r.states[k].db.transcripts
  {
    RunKeepsInv(q, r, i);
    assert Step(q, r.states[i], r.actions[i], r.states[i + 1]);
    SettledEpisodeFrozen(q, r, i + 1, k, e);
  }

  // A deleted episode never comes back, and its transcript goes with it, whoever still
  // works on it.
  lemma {:induction false} DroppedIsGone(q: Queue, r: Run, i: nat, k: nat, e: EpisodeId)
    requires IsRun(q, r) && i < k < |r.states| && r.actions[i] == DropEpisode(e) && e in r.states[i].db.episodes
    ensures e in r.states[k].used && e !in r.states[k].db.episodes && e !in r.states[k].db.transcripts
  {
    RunKeepsInv(q, r, k);
    if i + 1 == k {
      RunKeepsInv(q, r, i);
      assert Step(q, r.states[i], r.actions[i], r.states[k]);
    } else {
      DroppedIsGone(q, r, i, k - 1, e);
      assert Step(q, r.states[k - 1], r.actions[k - 1], r.states[k]);
      if ByAttempt(r.actions[k - 1]) {
        assert WorkerStep(q, r.states[k - 1], r.actions[k - 1], r.states[k - 1].workers[r.actions[k - 1].w], r.states[k]);
      }
    }
  }

  // ---------------------------------------------------------------- bounded attempts

  predicate ClaimsJob(a: Action, j: JobId) {
    a.Claim? && a.id == j
  }

  // How often job j was claimed in the first n steps.
  ghost function Claims(r: Run, j: JobId, n: nat): nat
    requires n <= |r.actions|
  {
    if n == 0 then 0 else Claims(r, j, n - 1) + if ClaimsJob(r.actions[n - 1], j) then 1 else 0
  }

  // How often Dequeue handed it to a worker to run.
  ghost function HandOuts(r: Run, j: JobId, n: nat): nat
    requires n <= |r.actions| && |r.states| == |r.actions| + 1
  {
    if n == 0 then 0
    else
      var a := r.actions[n - 1];
      var handed := ClaimsJob(a, j) && a.w in r.states[n].workers && r.states[n].workers[a.w].phase.Running?;
      HandOuts(r, j, n - 1) + if handed then 1 else 0
  }

  function Limit(q: Queue): nat {
    if q.maxAttempts < 0 then 0 else q.maxAttempts
  }

  function Min(a: nat, b: nat): nat {
    if a <= b then a else b
  }

  lemma NewJobsAreUnclaimed(q: Queue, s: System, a: Action, s': System, j: JobId)
    requires Step(q, s, a, s') && j !in s.db.jobs && j in s'.db.jobs
    ensures s'.db.jobs[j].attempts == 0 && s'.db.jobs[j].status == JobPending
  {
  }

  // A step changes the token of a job only by claiming it.
  lemma TokenStep(q: Queue, s: System, a: Action, s': System, j: JobId)
    requires Step(q, s, a, s') && j in s'.db.jobs && s'.db.jobs[j].attempts > 0
    ensures j in s.db.jobs
    ensures s'.db.jobs[j].attempts == s.db.jobs[j].attempts + if ClaimsJob(a, j) then 1 else 0
  {
    if j in s.db.jobs {
      RowStep(q, s, a, s', j);
    } else {
      NewJobsAreUnclaimed(q, s, a, s', j);
    }
  }

  lemma ClaimStep(q: Queue, s: System, a: Action, s': System, j: JobId)
    requires Step(q, s, a, s') && ClaimsJob(a, j)
    ensures j in s.db.jobs && j in s'.db.jobs && s'.db.jobs[j].attempts > 0 && a.w in s'.workers
    ensures s'.workers[a.w].phase.Running? <==> s'.db.jobs[j].attempts <= q.maxAttempts
  {
  }

  function AttemptsOf(s: System, j: JobId): nat {
    if j in s.db.jobs then s.db.jobs[j].attempts else 0
  }

  lemma AttemptsStep(q: Queue, s: System, a: Action, s': System, j: JobId)
    requires Step(q, s, a, s')
    ensures AttemptsOf(s', j) == AttemptsOf(s, j) + if ClaimsJob(a, j) then 1 else 0
  {
    if j in s.db.jobs {
      RowStep(q, s, a, s', j);
    } else if j in s'.db.jobs {
      NewJobsAreUnclaimed(q, s, a, s', j);
    }
  }

  // The token counts the claims.
  lemma {:induction false} ClaimsAreAttempts(q: Queue, r: Run, j: JobId, n: nat)
    requires IsRun(q, r) && n <= |r.actions|
    ensures Claims(r, j, n) == AttemptsOf(r.states[n], j)
  {
    if n == 0 {
    } else {
      ClaimsAreAttempts(q, r, j, n - 1);
      AttemptsStep(q, r.states[n - 1], r.actions[n - 1], r.states[n], j);
    }
  }

  // A job is handed out to run as often as it is claimed, but at most maxAttempts times,
  // even if every worker that takes it vanishes.
  lemma {:induction false} HandedOutAtMostMaxAttempts(q: Queue, r: Run, j: JobId, n: nat)
    requires IsRun(q, r) && n <= |r.actions|
    ensures Claims(r, j, n) == if j in r.states[n].db.jobs then r.states[n].db.jobs[j].attempts else 0
    ensures HandOuts(r, j, n) == Min(Claims(r, j, n), Limit(q)) <= Limit(q)
  {
    ClaimsAreAttempts(q, r, j, n);
    if n == 0 {
    } else {
      HandedOutAtMostMaxAttempts(q, r, j, n - 1);
      if ClaimsJob(r.actions[n - 1], j) {
        ClaimStep(q, r.states[n - 1], r.actions[n - 1], r.states[n], j);
      }
    }
  }

  // The write that Dequeue makes for a claim past the limit, on job j.
  predicate DeadLetters(s: System, a: Action, j: JobId) {
    a.DeadLetter? && a.w in s.workers && s.workers[a.w].job == j && HoldsClaim(s.db, j, s.workers[a.w].token)
  }

  // Step i claims job j past the attempt limit.
  predicate ClaimsPoisoned(q: Queue, r: Run, i: nat, j: JobId)
    requires i < |r.actions| && |r.states| == |r.actions| + 1
  {
    ClaimsJob(r.actions[i], j) && j in r.states[i + 1].db.jobs && r.states[i + 1].db.jobs[j].attempts > q.maxAttempts
  }

  // Before a job claimed past the limit is claimed again, the dead-letter write of some
  // claim of it has committed: no worker is lost, and no store call fails, right there.
  ghost predicate DeadLettersCommit(q: Queue, r: Run)
    requires |r.states| == |r.actions| + 1
  {
    forall j, i, k | 0 <= i < k < |r.actions| && ClaimsPoisoned(q, r, i, j) && ClaimsJob(r.actions[k], j) ::
      exists m | i < m < k :: DeadLetters(r.states[m], r.actions[m], j)
  }

  // A dead letter ends its job for good.
  lemma NoClaimAfterDeadLetter(q: Queue, r: Run, m: nat, k: nat, j: JobId)
    requires IsRun(q, r) && m < k < |r.actions| && DeadLetters(r.states[m], r.actions[m], j)
    ensures !ClaimsJob(r.actions[k], j)
  {
    assert WorkerStep(q, r.states[m], r.actions[m], r.states[m].workers[r.actions[m].w], r.states[m + 1]);
    TerminalIsFinal(q, r, m + 1, k, j);
    if ClaimsJob(r.actions[k], j) {
      RowStep(q, r.states[k], r.actions[k], r.states[k + 1], j);
    }
  }

  // The claim that issued the current token.
  lemma {:induction false} LastClaim(q: Queue, r: Run, n: nat, j: JobId) returns (i: nat)
    requires IsRun(q, r) && n < |r.states| && j in r.states[n].db.jobs && r.states[n].db.jobs[j].attempts > 0
    ensures i < n && ClaimsJob(r.actions[i], j)
    ensures j in r.states[i + 1].db.jobs && r.states[i + 1].db.jobs[j].attempts == r.states[n].db.jobs[j].attempts
  {
    assert n > 0;
    i := n - 1;
    TokenStep(q, r.states[i], r.actions[i], r.states[n], j);
    if ClaimsJob(r.actions[i], j) {
    } else {
      i := LastClaim(q, r, i, j);
    }
  }

  // A job claimed past the limit is never claimed again.
  ghost predicate PoisonIsLast(q: Queue, r: Run, j: JobId)
    requires |r.states| == |r.actions| + 1
  {
    forall i, k | 0 <= i < k < |r.actions| && ClaimsPoisoned(q, r, i, j) :: !ClaimsJob(r.actions[k], j)
  }

  lemma DeadLettersMakePoisonLast(q: Queue, r: Run, j: JobId)
    requires IsRun(q, r) && DeadLettersCommit(q, r)
    ensures PoisonIsLast(q, r, j)
  {
    forall i, k | 0 <= i < k < |r.actions| && ClaimsPoisoned(q, r, i, j) ensures !ClaimsJob(r.actions[k], j) {
      if ClaimsJob(r.actions[k], j) {
        var m :| i < m < k && DeadLetters(r.states[m], r.actions[m], j);
        NoClaimAfterDeadLetter(q, r, m, k, j);
      }
    }
  }

  // One past the limit is as far as attempts get.
  lemma {:induction false} AttemptsBounded(q: Queue, r: Run, n: nat, j: JobId)
    requires IsRun(q, r) && n < |r.states| && PoisonIsLast(q, r, j) && j in r.states[n].db.jobs
    ensures r.states[n].db.jobs[j].attempts <= Limit(q) + 1
  {
    if r.states[n].db.jobs[j].attempts > Limit(q) + 1 {
      var k := LastClaim(q, r, n, j);
      TokenStep(q, r.states[k], r.actions[k], r.states[k + 1], j);
      var i := LastClaim(q, r, k, j);
      assert ClaimsPoisoned(q, r, i, j);
    }
  }

  // Steps left at most for a job in this state.
  function Measure(q: Queue, job: Job): int {
    match job.status
    case JobPending => 3 * (Limit(q) + 1 - job.attempts) + 1
    case JobProcessing => 3 * (Limit(q) + 1 - job.attempts) + 2
    case JobDone => 0
    case JobFailed => 0
  }

  // How often the row of job j changed in the first n steps, its insertion aside.
  ghost function RowChanges(r: Run, j: JobId, n: nat): nat
    requires n <= |r.actions| && |r.states| == |r.actions| + 1
  {
    if n == 0 then 0
    else
      var before, after := r.states[n - 1].db.jobs, r.states[n].db.jobs;
      var changed := j in before && (j !in after || after[j] != before[j]);
      RowChanges(r, j, n - 1) + if changed then 1 else 0
  }

  // Every change of a row within the bound brings its job closer to done or failed.
  lemma MeasureFalls(q: Queue, s: System, a: Action, s': System, j: JobId)
    requires Step(q, s, a, s') && j in s.db.jobs && j in s'.db.jobs && s'.db.jobs[j].attempts <= Limit(q) + 1
    ensures 0 <= Measure(q, s'.db.jobs[j])
    ensures s'.db.jobs[j] == s.db.jobs[j] || Measure(q, s'.db.jobs[j]) < Measure(q, s.db.jobs[j])
  {
    RowStep(q, s, a, s', j);
  }

  // What the rows of job j have left together with the changes so far stays within the bound.
  lemma MeasureStep(q: Queue, s: System, a: Action, s': System, j: JobId, changes: nat)
    requires Step(q, s, a, s') && j in s'.db.jobs && s'.db.jobs[j].attempts <= Limit(q) + 1
    requires if j in s.db.jobs then changes + Measure(q, s.db.jobs[j]) <= 3 * Limit(q) + 4 else changes == 0
    ensures 0 <= Measure(q, s'.db.jobs[j])
    ensures changes + (if j in s.db.jobs && s'.db.jobs[j] != s.db.jobs[j] then 1 else 0) + Measure(q, s'.db.jobs[j]) <= 3 * Limit(q) + 4
  {
    if j in s.db.jobs {
      MeasureFalls(q, s, a, s', j);
    } else {
      NewJobsAreUnclaimed(q, s, a, s', j);
    }
  }

  lemma {:induction false} ChangesAndMeasure(q: Queue, r: Run, j: JobId, n: nat)
    requires IsRun(q, r) && n <= |r.actions| && PoisonIsLast(q, r, j)
    ensures j !in r.states[n].db.jobs ==> RowChanges(r, j, n) == 0
    ensures j in r.states[n].db.jobs ==>
      && 0 <= Measure(q, r.states[n].db.jobs[j])
      && RowChanges(r, j, n) + Measure(q, r.states[n].db.jobs[j]) <= 3 * Limit(q) + 4
  {
    if n == 0 {
    } else {
      ChangesAndMeasure(q, r, j, n - 1);
      var s, a, s' := r.states[n - 1], r.actions[n - 1], r.states[n];
      if j in s.db.jobs {
        RowStep(q, s, a, s', j);
      }
      if j in s'.db.jobs {
        AttemptsBounded(q, r, n, j);
        MeasureStep(q, s, a, s', j, RowChanges(r, j, n - 1));
      }
    }
  }

  // If dead letters commit, a job is claimed at most maxAttempts + 1 times, and its row
  // changes at most 3 * maxAttempts + 4 times before it is done or failed.
  lemma {:induction false} EveryJobSettles(q: Queue, r: Run, j: JobId, n: nat)
    requires IsRun(q, r) && n <= |r.actions| && DeadLettersCommit(q, r)
    ensures Claims(r, j, n) <= Limit(q) + 1
    ensures j !in r.states[n].db.jobs ==> RowChanges(r, j, n) == 0
    ensures j in r.states[n].db.jobs ==>
      && 0 <= Measure(q, r.states[n].db.jobs[j])
      && RowChanges(r, j, n) + Measure(q, r.states[n].db.jobs[j]) <= 3 * Limit(q) + 4
  {
    DeadLettersMakePoisonLast(q, r, j);
    ClaimsAreAttempts(q, r, j, n);
    ChangesAndMeasure(q, r, j, n);
    if j in r.states[n].db.jobs {
      AttemptsBounded(q, r, n, j);
    }
  }

  // ---------------------------------------------------------------- leases

  ghost predicate Reschedules(s: System, s': System, j: JobId) {
    && j in s.db.jobs && j in s'.db.jobs
    && s.db.jobs[j].status.JobProcessing? && s'.db.jobs[j].status.JobPending?
  }

  lemma {:induction false} LeaseHolds(q: Queue, r: Run, i: nat, k: nat, j: JobId)
    requires IsRun(q, r) && 0 <= q.lease && i < k < |r.states| && ClaimsJob(r.actions[i], j)
    requires forall n | i < n < k :: !Reschedules(r.states[n], r.states[n + 1], j)
    ensures j in r.states[k].db.jobs
    ensures ToUnixCeil(r.actions[i].now + q.lease) <= r.states[k].db.jobs[j].runAfter
  {
    if i + 1 == k {
      assert Step(q, r.states[i], r.actions[i], r.states[k]);
    } else {
      LeaseHolds(q, r, i, k - 1, j);
      var s, a, s' := r.states[k - 1], r.actions[k - 1], r.states[k];
      RowStep(q, s, a, s', j);
      if ClaimsJob(a, j) {
        CeilDeadlineNotEarly(r.actions[i].now + q.lease, a.now);
      }
    }
  }

  // Step n is a claim of job j or a settlement of it that took effect.
  ghost predicate Touches(r: Run, n: nat, j: JobId)
    requires n < |r.actions| && |r.states| == |r.actions| + 1
  {
    var s, a := r.states[n], r.actions[n];
    ClaimsJob(a, j) || (ByAttempt(a) && a.w in s.workers && Settles(s, a, r.states[n + 1], j, s.workers[a.w].token))
  }

  lemma UntouchedStep(q: Queue, r: Run, n: nat, j: JobId)
    requires IsRun(q, r) && n < |r.actions| && j in r.states[n].db.jobs && !Touches(r, n, j)
    ensures j in r.states[n + 1].db.jobs && r.states[n + 1].db.jobs[j] == r.states[n].db.jobs[j]
  {
    var s, a, s' := r.states[n], r.actions[n], r.states[n + 1];
    RowStep(q, s, a, s', j);
    if ByAttempt(a) && s.workers[a.w].job == j {
      assert !Settles(s, a, s', j, s.workers[a.w].token);
    }
  }

  lemma {:induction false} Untouched(q: Queue, r: Run, i: nat, k: nat, j: JobId)
    requires IsRun(q, r) && i <= k < |r.states| && j in r.states[i].db.jobs
    requires forall n | i <= n < k :: !Touches(r, n, j)
    ensures j in r.states[k].db.jobs && r.states[k].db.jobs[j] == r.states[i].db.jobs[j]
  {
    if i == k {
    } else {
      Untouched(q, r, i, k - 1, j);
      UntouchedStep(q, r, k - 1, j);
    }
  }

  // A claimed job whose worker is never heard of again is due exactly from the first whole
  // second at or after the end of the lease.
  lemma DueExactlyAfterLease(q: Queue, r: Run, i: nat, k: nat, j: JobId, later: int)
    requires IsRun(q, r) && i < k < |r.states| && ClaimsJob(r.actions[i], j)
    requires forall n | i < n < k :: !Touches(r, n, j)
    ensures j in r.states[k].db.jobs
    ensures Due(r.states[k].db.jobs[j], [TRANSCRIBE], later) <==> r.actions[i].now + q.lease <= ToUnix(later) * SECOND
  {
    var end := r.actions[i].now + q.lease;
    assert Step(q, r.states[i], r.actions[i], r.states[i + 1]);
    RowStep(q, r.states[i], r.actions[i], r.states[i + 1], j);
    Untouched(q, r, i + 1, k, j);
    CeilReached(end, later);
  }

  lemma CeilReached(end: int, later: int)
    ensures ToUnixCeil(end) * SECOND <= later <==> end <= ToUnix(later) * SECOND
  {
  }

  // A rescheduled job is due exactly when its retry time, in whole seconds, has come.
  lemma DueExactlyAtRetry(q: Queue, r: Run, i: nat, k: nat, j: JobId, later: int)
    requires IsRun(q, r) && i < k < |r.states| && r.actions[i].Nack? && Reschedules(r.states[i], r.states[i + 1], j)
    requires r.states[i].db.jobs[j].kind == TRANSCRIBE && forall n | i < n < k :: !Touches(r, n, j)
    ensures j in r.states[k].db.jobs
    ensures Due(r.states[k].db.jobs[j], [TRANSCRIBE], later) <==> ToUnix(r.actions[i].runAfter) <= ToUnix(later)
  {
    RescheduleHolds(q, r, i, i + 1, j);
    RowFrame(q, r.states[i], r.actions[i], r.states[i + 1], j);
    Untouched(q, r, i + 1, k, j);
    ReachedBy(ToUnix(r.actions[i].runAfter), later);
    assert [TRANSCRIBE][0] == TRANSCRIBE;
  }

  // What no step ever changes in a job's row.
  lemma RowFrame(q: Queue, s: System, a: Action, s': System, j: JobId)
    requires Step(q, s, a, s') && j in s.db.jobs
    ensures j in s'.db.jobs
    ensures var row, row' := s.db.jobs[j], s'.db.jobs[j];
      row'.kind == row.kind && row'.episode == row.episode && row'.createdAt == row.createdAt
  {
    if ByAttempt(a) {
      assert WorkerStep(q, s, a, s.workers[a.w], s');
    }
  }

  // Two claims of a job with no reschedule between them are a full lease apart, to the
  // nanosecond, although run_after is kept in whole seconds.
  lemma ClaimsALeaseApart(q: Queue, r: Run, i: nat, k: nat, j: JobId)
    requires IsRun(q, r) && 0 <= q.lease && i < k < |r.actions| && ClaimsJob(r.actions[i], j) && ClaimsJob(r.actions[k], j)
    requires forall n | i < n < k :: !Reschedules(r.states[n], r.states[n + 1], j)
    ensures r.actions[i].now + q.lease <= r.actions[k].now
  {
    LeaseHolds(q, r, i, k, j);
    RowStep(q, r.states[k], r.actions[k], r.states[k + 1], j);
    CeilDeadlineNotEarly(r.actions[i].now + q.lease, r.actions[k].now);
  }

  lemma {:induction false} RescheduleHolds(q: Queue, r: Run, i: nat, k: nat, j: JobId)
    requires IsRun(q, r) && i < k < |r.states| && r.actions[i].Nack? && Reschedules(r.states[i], r.states[i + 1], j)
    requires forall n | i < n < k :: !ClaimsJob(r.actions[n], j)
    ensures j in r.states[k].db.jobs && r.states[k].db.jobs[j] == r.states[i + 1].db.jobs[j]
    ensures r.states[k].db.jobs[j].runAfter == ToUnix(r.actions[i].runAfter)
  {
    if i + 1 == k {
      RowStep(q, r.states[i], r.actions[i], r.states[k], j);
    } else {
      RescheduleHolds(q, r, i, k - 1, j);
      RowStep(q, r.states[k - 1], r.actions[k - 1], r.states[k], j);
    }
  }

  // The retry after a reschedule runs less than one second early.
  lemma RetryAlmostOnTime(q: Queue, r: Run, i: nat, k: nat, j: JobId)
    requires IsRun(q, r) && i < k < |r.actions| && r.actions[i].Nack? && Reschedules(r.states[i], r.states[i + 1], j)
    requires ClaimsJob(r.actions[k], j) && forall n | i < n < k :: !ClaimsJob(r.actions[n], j)
    ensures r.actions[i].runAfter - SECOND < r.actions[k].now
  {
    RescheduleHolds(q, r, i, k, j);
    RowStep(q, r.states[k], r.actions[k], r.states[k + 1], j);
    FloorDeadlineAlmostOnTime(r.actions[i].runAfter, r.actions[k].now);
  }
}
