/**
 When an episode gets stuck. Failing a job and marking its episode failed are two
 transactions (worker/worker.go). A worker lost between them strands the episode for good;
 nothing else does: every other episode in work can still be brought to an end.
 */
module JobStranding {
  import opened Backoff
  import opened Options
  import opened UnixTime
  import opened JobTables
  import opened JobStorage
  import opened JobProtocol
  import opened JobSafety
  import opened JobHistory

  // Job j has failed and nobody is left to write the failed mark of its episode.
  ghost predicate Stranded(s: System, j: JobId, e: EpisodeId) {
    && Owes(s, j, e) && s.db.jobs[j].status.JobFailed? && e in s.db.episodes
    && forall w | w in s.workers && s.workers[w].phase.MarkDue? :: s.workers[w].job != j
  }

  // The worker that has just failed job j is lost before it marks the episode, which is
  // still there.
  predicate LosesMark(s: System, a: Action, j: JobId, e: EpisodeId) {
    && a.Vanish? && a.w in s.workers && s.workers[a.w].phase.MarkDue?
    && s.workers[a.w].job == j && s.workers[a.w].episode == e && e in s.db.episodes
  }

  // ---------------------------------------------------------------- what strands

  lemma StrandedStays(q: Queue, s: System, a: Action, s': System, j: JobId, e: EpisodeId)
    requires Inv(s) && Step(q, s, a, s') && Stranded(s, j, e)
    ensures Stranded(s', j, e) <==> a != DropEpisode(e)
  {
    RowStep(q, s, a, s', j);
    if ByAttempt(a) {
      assert WorkerStep(q, s, a, s.workers[a.w], s');
    }
  }

  lemma LostMarkStrands(q: Queue, s: System, a: Action, s': System, j: JobId, e: EpisodeId)
    requires Inv(s) && Step(q, s, a, s') && LosesMark(s, a, j, e)
    ensures !Stranded(s, j, e) && Stranded(s', j, e)
  {
    assert WorkerOk(s, s.workers[a.w]);
    assert s' == Done(s, a.w);
  }

  // A job that fails does so in the hands of a worker that is then due to mark it.
  lemma FailingBringsAMarker(q: Queue, s: System, a: Action, s': System, j: JobId)
    requires Inv(s) && Step(q, s, a, s') && j in s'.db.jobs && s'.db.jobs[j].status.JobFailed?
    requires j in s.db.jobs ==> !s.db.jobs[j].status.JobFailed?
    ensures ByAttempt(a) && a.w in s'.workers && s'.workers[a.w].phase.MarkDue? && s'.workers[a.w].job == j
  {
    if ByAttempt(a) {
      assert WorkerStep(q, s, a, s.workers[a.w], s');
      assert WorkerOk(s, s.workers[a.w]);
    }
  }

  // A worker that is due to mark a job stays so, writes the mark, or is lost.
  lemma MarkerStep(q: Queue, s: System, a: Action, s': System, v: WorkerId)
    requires Inv(s) && Step(q, s, a, s') && v in s.workers && s.workers[v].phase.MarkDue?
    ensures || (v in s'.workers && s'.workers[v] == s.workers[v])
            || s.workers[v].job in s'.marked
            || (a == Vanish(v))
  {
    if ByAttempt(a) {
      assert WorkerStep(q, s, a, s.workers[a.w], s');
      assert WorkerOk(s, s.workers[v]);
    }
  }

  lemma OnlyLostMarkStrands(q: Queue, s: System, a: Action, s': System, j: JobId, e: EpisodeId)
    requires Inv(s) && Step(q, s, a, s') && !Stranded(s, j, e) && Stranded(s', j, e)
    ensures LosesMark(s, a, j, e)
  {
    if j !in s.db.jobs || !s.db.jobs[j].status.JobFailed? {
      FailingBringsAMarker(q, s, a, s', j);
    } else {
      StillThere(q, s, a, s', j, e);
      var v :| v in s.workers && s.workers[v].phase.MarkDue? && s.workers[v].job == j;
      MarkerStep(q, s, a, s', v);
      assert WorkerOk(s, s.workers[v]);
    }
  }

  // A failed job owes its episode after a step only if it did before.
  lemma StillThere(q: Queue, s: System, a: Action, s': System, j: JobId, e: EpisodeId)
    requires Inv(s) && Step(q, s, a, s') && Stranded(s', j, e)
    requires j in s.db.jobs && s.db.jobs[j].status.JobFailed?
    ensures Owes(s, j, e) && e in s.db.episodes
  {
    RowStep(q, s, a, s', j);
    if ByAttempt(a) {
      assert WorkerStep(q, s, a, s.workers[a.w], s');
    }
  }

  lemma StrandedStep(q: Queue, s: System, a: Action, s': System, j: JobId, e: EpisodeId)
    requires Inv(s) && Step(q, s, a, s')
    ensures Stranded(s', j, e) <==> (Stranded(s, j, e) && a != DropEpisode(e)) || LosesMark(s, a, j, e)
  {
    if Stranded(s, j, e) {
      StrandedStays(q, s, a, s', j, e);
      if LosesMark(s, a, j, e) {
        LostMarkStrands(q, s, a, s', j, e);
      }
    } else if Stranded(s', j, e) {
      OnlyLostMarkStrands(q, s, a, s', j, e);
    } else if LosesMark(s, a, j, e) {
      LostMarkStrands(q, s, a, s', j, e);
    }
  }

  // The mark of job j was lost before step k, and its episode has not been deleted since.
  ghost predicate MarkLostBefore(r: Run, k: nat, j: JobId, e: EpisodeId)
    requires k < |r.states| == |r.actions| + 1
  {
    exists n | 0 <= n < k ::
      LosesMark(r.states[n], r.actions[n], j, e) && forall m | n < m < k :: r.actions[m] != DropEpisode(e)
  }

  lemma MarkLostStep(r: Run, k: nat, j: JobId, e: EpisodeId)
    requires 0 < k < |r.states| == |r.actions| + 1
    ensures MarkLostBefore(r, k, j, e) <==>
      || (MarkLostBefore(r, k - 1, j, e) && r.actions[k - 1] != DropEpisode(e))
      || LosesMark(r.states[k - 1], r.actions[k - 1], j, e)
  {
  }

  // Over every run: an episode is stranded exactly when its mark was lost and it has not
  // been deleted since.
  lemma {:induction false} StrandedExactlyWhenMarkLost(q: Queue, r: Run, k: nat, j: JobId, e: EpisodeId)
    requires IsRun(q, r) && k < |r.states|
    ensures Stranded(r.states[k], j, e) <==> MarkLostBefore(r, k, j, e)
  {
    if k == 0 {
    } else {
      StrandedExactlyWhenMarkLost(q, r, k - 1, j, e);
      RunKeepsInv(q, r, k - 1);
      StrandedStep(q, r.states[k - 1], r.actions[k - 1], r.states[k], j, e);
      MarkLostStep(r, k, j, e);
    }
  }

  // ---------------------------------------------------------------- it does happen

  // The clock reading a step makes: the store's `now`, and for Nack the instant its delay
  // is added to.
  function Stamp(s: System, a: Action): Option<int> {
    match a
    case Enqueue(_, _, now) => Some(now)
    case Claim(_, _, now) => Some(now)
    case Nack(w, runAfter, _) => if w in s.workers then Some(runAfter - DefaultBackoff(s.workers[w].token)) else None
    case _ => None
  }

  // The clock never goes back, and is at most at `until` in the end.
  ghost predicate OnClock(r: Run, until: int)
    requires |r.states| == |r.actions| + 1
  {
    forall j | 0 <= j < |r.actions| && Stamp(r.states[j], r.actions[j]).Some? ::
      && Stamp(r.states[j], r.actions[j]).value <= until
      && forall i | 0 <= i < j && Stamp(r.states[i], r.actions[i]).Some? ::
           Stamp(r.states[i], r.actions[i]).value <= Stamp(r.states[j], r.actions[j]).value
  }

  lemma ExtendOnClock(q: Queue, r: Run, a: Action, s': System, from: int, until: int) returns (longer: Run)
    requires IsRun(q, r) && Step(q, Last(r), a, s') && OnClock(r, from)
    requires from <= Stamp(Last(r), a).GetOr(from) <= until
    ensures IsRun(q, longer) && Last(longer) == s' && OnClock(longer, until)
  {
    longer := Extend(q, r, a, s');
    var n := |r.actions|;
    assert forall i | 0 <= i < n :: longer.states[i] == r.states[i] && longer.actions[i] == r.actions[i];
    assert longer.states[n] == Last(r) && longer.actions[n] == a;
  }

  // When the job's claim number t + 1 is made: each retry waits out the default backoff.
  function When(t: nat): int {
    if t == 0 then 0 else When(t - 1) + DefaultBackoff(t)
  }

  // One episode, its job claimed and rescheduled t times.
  function Waiting(t: nat): System {
    var job := Job(TRANSCRIBE, 0, JobPending, t, "", ToUnix(When(t)), 0);
    System(Db(map[0 := TranscriptPending], map[], map[0 := job]), map[], {0}, {})
  }

  // The job of Waiting(t), just claimed.
  function Taken(q: Queue, t: nat): System {
    var phase := if t + 1 > q.maxAttempts then Poisoned else Running;
    System(ClaimJob(Waiting(t).db, 0, When(t), q.lease), map[0 := Worker(phase, 0, t + 1, 0)], {0}, {})
  }

  lemma TakeIt(q: Queue, r: Run, t: nat) returns (longer: Run)
    requires IsRun(q, r) && Last(r) == Waiting(t) && OnClock(r, When(t))
    ensures IsRun(q, longer) && Last(longer) == Taken(q, t) && OnClock(longer, When(t))
  {
    longer := ExtendOnClock(q, r, Claim(0, 0, When(t)), Taken(q, t), When(t), When(t));
  }

  lemma FirstWaiting(q: Queue) returns (r: Run)
    ensures IsRun(q, r) && Last(r) == Waiting(0) && OnClock(r, When(0))
  {
    assert ToUnix(0) == 0;
    r := Run([System(Db(map[], map[], map[]), map[], {}, {})], []);
    r := ExtendOnClock(q, r, NewEpisode(0), System(Db(map[0 := TranscriptNone], map[], map[]), map[], {0}, {}), 0, 0);
    r := ExtendOnClock(q, r, Enqueue(0, 0, 0), Waiting(0), 0, 0);
  }

  lemma PutOff(q: Queue, t: nat)
    requires t + 1 < q.maxAttempts
    ensures When(t + 1) == When(t) + DefaultBackoff(t + 1)
    ensures Step(q, Goto(Taken(q, t), 0, Failing), Nack(0, When(t + 1), ""), Waiting(t + 1))
  {
    var s := Goto(Taken(q, t), 0, Failing);
    assert HoldsClaim(s.db, 0, t + 1);
    assert s.workers - {0} == map[];
    assert WorkerStep(q, s, Nack(0, When(t + 1), ""), s.workers[0], Waiting(t + 1));
  }

  // The attempt fails at once and is put off by the default backoff.
  lemma OneRetry(q: Queue, before: Run, t: nat) returns (r: Run)
    requires IsRun(q, before) && Last(before) == Waiting(t) && OnClock(before, When(t)) && t + 1 < q.maxAttempts
    ensures IsRun(q, r) && Last(r) == Waiting(t + 1) && OnClock(r, When(t + 1))
  {
    r := TakeIt(q, before, t);
    r := ExtendOnClock(q, r, WorkFails(0), Goto(Last(r), 0, Failing), When(t), When(t));
    PutOff(q, t);
    r := ExtendOnClock(q, r, Nack(0, When(t + 1), ""), Waiting(t + 1), When(t), When(t + 1));
  }

  lemma {:induction false} AfterRetries(q: Queue, t: nat) returns (r: Run)
    requires t == 0 || t < q.maxAttempts
    ensures IsRun(q, r) && Last(r) == Waiting(t) && OnClock(r, When(t))
  {
    if t == 0 {
      r := FirstWaiting(q);
    } else {
      r := AfterRetries(q, t - 1);
      r := OneRetry(q, r, t - 1);
    }
  }

  // The last attempt fails, or there is none to have: the job is dead, its mark is due.
  ghost predicate MarkDueIn(s: System, t: nat) {
    && s.workers == map[0 := Worker(MarkDue, 0, t + 1, 0)] && s.marked == {}
    && s.db.episodes == map[0 := TranscriptPending]
    && s.db.jobs.Keys == {0} && s.db.jobs[0].status == JobFailed && s.db.jobs[0].episode == 0
  }

  lemma NoAttemptToHave(q: Queue, before: Run) returns (r: Run)
    requires IsRun(q, before) && Last(before) == Taken(q, 0) && OnClock(before, When(0)) && q.maxAttempts < 1
    ensures IsRun(q, r) && OnClock(r, When(0)) && MarkDueIn(Last(r), 0)
  {
    r := ExtendOnClock(q, before, DeadLetter(0), FailThenMark(Last(before), 0, "dbqueue: exceeded max attempts"), When(0), When(0));
  }

  lemma LastAttemptFails(q: Queue, before: Run, t: nat) returns (r: Run)
    requires IsRun(q, before) && Last(before) == Taken(q, t) && OnClock(before, When(t)) && q.maxAttempts == t + 1
    ensures IsRun(q, r) && OnClock(r, When(t)) && MarkDueIn(Last(r), t)
  {
    var now := When(t);
    r := ExtendOnClock(q, before, WorkFails(0), Goto(Last(before), 0, Failing), now, now);
    r := ExtendOnClock(q, r, Nack(0, now + DefaultBackoff(t + 1), ""), FailThenMark(Last(r), 0, ""), now, now);
  }

  // Under every attempt limit an episode can be stranded, on a forward clock and with the
  // default backoff before every retry.
  lemma StrandingHappens(q: Queue) returns (r: Run, until: int)
    ensures IsRun(q, r) && OnClock(r, until) && Stranded(Last(r), 0, 0)
  {
    var t := if q.maxAttempts > 1 then q.maxAttempts - 1 else 0;
    until := When(t);
    r := AfterRetries(q, t);
    r := TakeIt(q, r, t);
    if q.maxAttempts < 1 {
      r := NoAttemptToHave(q, r);
    } else {
      r := LastAttemptFails(q, r, t);
    }
    assert MarkDueIn(Last(r), t);
    r := ExtendOnClock(q, r, Vanish(0), Done(Last(r), 0), until, until);
  }

  // ---------------------------------------------------------------- nothing else is stuck

  lemma {:induction false} AboveAll(ids: set<WorkerId>) returns (w: WorkerId)
    ensures forall i | i in ids :: i < w
    decreases ids
  {
    if ids == {} {
      w := 0;
    } else {
      var i :| i in ids;
      var rest := AboveAll(ids - {i});
      assert forall k | k in ids :: k == i || k in ids - {i};
      w := if i < rest then rest else i + 1;
    }
  }

  // Job id is over, its episode with it, and nothing else has moved.
  ghost predicate Finishes(s: System, id: JobId, s': System)
    requires id in s.db.jobs
  {
    && s'.workers == s.workers
    && s'.db.episodes.Keys == s.db.episodes.Keys
    && s'.db.jobs.Keys == s.db.jobs.Keys
    && (forall k | k in s.db.jobs && k != id :: s'.db.jobs[k] == s.db.jobs[k])
    && s'.db.jobs[id].status in {JobDone, JobFailed}
    && (s.db.jobs[id].episode in s.db.episodes ==> !Active(s'.db.episodes[s.db.jobs[id].episode]))
  }

  // The longer run carries on from r; it enqueues and reschedules nothing, and every claim
  // it makes is at `now`.
  predicate Continues(r: Run, longer: Run, now: int) {
    && r.states <= longer.states && r.actions <= longer.actions
    && forall n | |r.actions| <= n < |longer.actions| ::
         && !longer.actions[n].Enqueue? && !longer.actions[n].Nack?
         && (longer.actions[n].Claim? ==> longer.actions[n].now == now)
  }

  lemma ContinuesOn(r: Run, mid: Run, longer: Run, now: int)
    requires Continues(r, mid, now) && Continues(mid, longer, now)
    ensures Continues(r, longer, now)
  {
    assert forall n | 0 <= n < |mid.actions| :: longer.actions[n] == mid.actions[n];
  }

  lemma FinishPoisoned(q: Queue, r: Run, w: WorkerId, me: Worker, now: int) returns (longer: Run)
    requires IsRun(q, r) && w in Last(r).workers && Last(r).workers[w] == me && me.phase.Poisoned?
    requires HoldsClaim(Last(r).db, me.job, me.token) && Last(r).db.jobs[me.job].episode == me.episode
    ensures IsRun(q, longer) && Continues(r, longer, now)
    ensures Finishes(Done(Last(r), w), me.job, Last(longer))
  {
    longer := Extend(q, r, DeadLetter(w), FailThenMark(Last(r), w, "dbqueue: exceeded max attempts"));
    var s := Last(longer);
    var settled := SettleEpisodeTranscript(s.db, me.job, me.token, me.episode, None, TranscriptFailed);
    longer := Extend(q, longer, MarkFailed(w), Done(s.(db := settled.0, marked := s.marked + {me.job}), w));
  }

  lemma FinishRunning(q: Queue, r: Run, w: WorkerId, me: Worker, now: int) returns (longer: Run)
    requires IsRun(q, r) && w in Last(r).workers && Last(r).workers[w] == me && me.phase.Running?
    requires HoldsClaim(Last(r).db, me.job, me.token) && Last(r).db.jobs[me.job].episode == me.episode
    ensures IsRun(q, longer) && Continues(r, longer, now)
    ensures Finishes(Done(Last(r), w), me.job, Last(longer))
  {
    var there := me.episode in Last(r).db.episodes;
    longer := Extend(q, r, LookUp(w), Goto(Last(r), w, if there then Transcribing else EpisodeGone));
    var s := Last(longer);
    if there {
      var settled := SettleAndCompleteJob(s.db, me.job, me.token, me.episode, None, TranscriptNone);
      longer := Extend(q, longer, Settle(w, None, true), Done(s.(db := settled.0), w));
    } else {
      longer := Extend(q, longer, Acknowledge(w), Done(s.(db := CompleteJob(s.db, me.job, me.token).0), w));
    }
  }

  // A new worker takes the oldest due job and brings it to its end.
  lemma FinishOldest(q: Queue, r: Run, id: JobId, now: int) returns (longer: Run)
    requires IsRun(q, r) && IsOldest(Last(r).db.jobs, [TRANSCRIBE], now, id)
    ensures IsRun(q, longer) && Continues(r, longer, now)
    ensures Finishes(Last(r), id, Last(longer))
  {
    var s := Last(r);
    var w := AboveAll(s.workers.Keys);
    assert w !in s.workers;
    var db := ClaimJob(s.db, id, now, q.lease);
    var token := db.jobs[id].attempts;
    var me := Worker(if token > q.maxAttempts then Poisoned else Running, id, token, db.jobs[id].episode);
    var claimed := Extend(q, r, Claim(w, id, now), s.(db := db, workers := s.workers[w := me]));
    if me.phase.Poisoned? {
      longer := FinishPoisoned(q, claimed, w, me, now);
    } else {
      longer := FinishRunning(q, claimed, w, me, now);
    }
    assert Done(Last(claimed), w).workers == s.workers;
    ContinuesOn(r, claimed, longer, now);
  }

  // A live job gets its turn once the older ones are done, and with it its episode.
  lemma {:induction false} LiveJobCanFinish(q: Queue, r: Run, j: JobId, now: int) returns (longer: Run)
    requires IsRun(q, r) && j in Last(r).db.jobs && Runnable(Last(r).db.jobs[j], [TRANSCRIBE], now)
    requires Last(r).db.jobs[j].episode in Last(r).db.episodes
    ensures IsRun(q, longer) && Continues(r, longer, now)
    ensures var e := Last(r).db.jobs[j].episode; e in Last(longer).db.episodes && !Active(Last(longer).db.episodes[e])
    decreases RunnableJobs(Last(r).db.jobs, [TRANSCRIBE], now)
  {
    var jobs := Last(r).db.jobs;
    var due := RunnableJobs(jobs, [TRANSCRIBE], now);
    assert j in due;
    var id := OldestExists(jobs, [TRANSCRIBE], now, due);
    assert IsOldest(jobs, [TRANSCRIBE], now, id) by {
      assert forall k | k in jobs && Runnable(jobs[k], [TRANSCRIBE], now) :: k in due;
    }
    var next := FinishOldest(q, r, id, now);
    if id == j {
      longer := next;
    } else {
      assert RunnableJobs(Last(next).db.jobs, [TRANSCRIBE], now) == due - {id};
      longer := LiveJobCanFinish(q, next, j, now);
      ContinuesOn(r, next, longer, now);
    }
  }

  ghost predicate SettlesAt(q: Queue, r: Run, e: EpisodeId, longer: Run, now: int) {
    && IsRun(q, longer) && Continues(r, longer, now)
    && e in Last(longer).db.episodes && !Active(Last(longer).db.episodes[e])
  }

  // However late it is by then: some continuation, at an instant not before `from`, ends
  // with the episode out of work.
  ghost predicate CanSettle(q: Queue, r: Run, e: EpisodeId, from: int) {
    exists longer, now | from <= now :: SettlesAt(q, r, e, longer, now)
  }

  // An episode id that was used is never given out again.
  lemma UsedStep(q: Queue, s: System, a: Action, s': System)
    requires Step(q, s, a, s')
    ensures s.used <= s'.used
    ensures forall e | e in s.used && e in s'.db.episodes :: e in s.db.episodes
  {
    if ByAttempt(a) {
      assert WorkerStep(q, s, a, s.workers[a.w], s');
    }
  }

  lemma {:induction false} UsedOver(q: Queue, r: Run, i: nat, k: nat)
    requires IsRun(q, r) && i <= k < |r.states|
    ensures r.states[i].used <= r.states[k].used
  {
    if i == k {
    } else {
      UsedOver(q, r, i, k - 1);
      UsedStep(q, r.states[k - 1], r.actions[k - 1], r.states[k]);
    }
  }

  lemma ThereBefore(q: Queue, r: Run, i: nat, k: nat, e: EpisodeId)
    requires IsRun(q, r) && i < k < |r.states| && e in r.states[i].db.episodes && e in r.states[k].db.episodes
    ensures e in r.states[k - 1].db.episodes
  {
    RunKeepsInv(q, r, i);
    UsedOver(q, r, i, k - 1);
    UsedStep(q, r.states[k - 1], r.actions[k - 1], r.states[k]);
  }

  lemma StaysWhileThere(q: Queue, s: System, a: Action, s': System, j: JobId, e: EpisodeId)
    requires Inv(s) && Step(q, s, a, s') && e in s'.db.episodes
    ensures a != DropEpisode(e)
    ensures Stranded(s, j, e) ==> Stranded(s', j, e)
  {
    StrandedStep(q, s, a, s', j, e);
  }

  lemma {:induction false} StrandedUntilGone(q: Queue, r: Run, i: nat, k: nat, j: JobId, e: EpisodeId)
    requires IsRun(q, r) && i <= k < |r.states| && Stranded(r.states[i], j, e) && e in r.states[k].db.episodes
    ensures Stranded(r.states[k], j, e)
    decreases k
  {
    if i == k {
    } else {
      ThereBefore(q, r, i, k, e);
      RunKeepsInv(q, r, k - 1);
      StrandedUntilGone(q, r, i, k - 1, j, e);
      StaysWhileThere(q, r.states[k - 1], r.actions[k - 1], r.states[k], j, e);
    }
  }

  // While it is there, a stranded episode is in work, and every request to transcribe it is
  // a conflict.
  lemma StrandedIsStuck(q: Queue, r: Run, i: nat, k: nat, j: JobId, e: EpisodeId)
    requires IsRun(q, r) && i <= k < |r.states| && Stranded(r.states[i], j, e) && e in r.states[k].db.episodes
    ensures Active(r.states[k].db.episodes[e])
    ensures forall id, now :: EnqueueTranscriptionJob(r.states[k].db, id, TRANSCRIBE, e, now) == (r.states[k].db, ErrConflict)
  {
    StrandedUntilGone(q, r, i, k, j, e);
    RunKeepsInv(q, r, k);
    assert Owes(r.states[k], j, e);
  }

  // A live job can finish its episode at any instant from its due time on, and a waiting
  // marker at any instant at all.
  lemma UnstrandedSettlesAt(q: Queue, r: Run, e: EpisodeId, j: JobId, now: int) returns (longer: Run)
    requires IsRun(q, r) && e in Last(r).db.episodes && Owes(Last(r), j, e) && !Stranded(Last(r), j, e)
    requires !Last(r).db.jobs[j].status.JobFailed? ==> FromUnix(Last(r).db.jobs[j].runAfter) <= now
    ensures SettlesAt(q, r, e, longer, now)
  {
    var s := Last(r);
    RunKeepsInv(q, r, |r.states| - 1);
    if s.db.jobs[j].status.JobFailed? {
      var w :| w in s.workers && s.workers[w].phase.MarkDue? && s.workers[w].job == j;
      longer := MarkerCanFinish(q, r, w, now);
    } else {
      ToUnixMonotone(FromUnix(s.db.jobs[j].runAfter), now);
      longer := LiveJobCanFinish(q, r, j, now);
    }
  }

  // An episode that no job strands can be settled, by its waiting marker or by a new worker
  // that first works off what is older.
  lemma UnstrandedCanSettle(q: Queue, r: Run, e: EpisodeId, from: int)
    requires IsRun(q, r) && e in Last(r).db.episodes && forall j :: !Stranded(Last(r), j, e)
    ensures CanSettle(q, r, e, from)
  {
    var s := Last(r);
    RunKeepsInv(q, r, |r.states| - 1);
    if !Active(s.db.episodes[e]) {
      assert SettlesAt(q, r, e, r, from);
    } else {
      var j :| Owes(s, j, e);
      assert !Stranded(s, j, e);
      var due := FromUnix(s.db.jobs[j].runAfter);
      var now := if from <= due then due else from;
      var longer := UnstrandedSettlesAt(q, r, e, j, now);
    }
  }

  lemma MarkerCanFinish(q: Queue, r: Run, w: WorkerId, now: int) returns (longer: Run)
    requires IsRun(q, r) && Inv(Last(r)) && w in Last(r).workers && Last(r).workers[w].phase.MarkDue?
    requires Last(r).workers[w].episode in Last(r).db.episodes
    ensures SettlesAt(q, r, Last(r).workers[w].episode, longer, now)
  {
    var s := Last(r);
    var me := s.workers[w];
    assert WorkerOk(s, me);
    var settled := SettleEpisodeTranscript(s.db, me.job, me.token, me.episode, None, TranscriptFailed);
    longer := Extend(q, r, MarkFailed(w), Done(s.(db := settled.0, marked := s.marked + {me.job}), w));
  }

  // In every reachable state, and however late: an episode can still be brought out of work
  // if and only if no failed job without a marker strands it.
  lemma CanSettleExactlyWhenNotStranded(q: Queue, r: Run, e: EpisodeId, from: int)
    requires IsRun(q, r) && e in Last(r).db.episodes
    ensures CanSettle(q, r, e, from) <==> forall j :: !Stranded(Last(r), j, e)
  {
    if j :| Stranded(Last(r), j, e) {
      forall longer, now | IsRun(q, longer) && Continues(r, longer, now) && e in Last(longer).db.episodes
        ensures Active(Last(longer).db.episodes[e])
      {
        StrandedIsStuck(q, longer, |r.states| - 1, |longer.states| - 1, j, e);
      }
    } else {
      UnstrandedCanSettle(q, r, e, from);
    }
  }

  // And so if and only if no worker that failed its job was lost before the mark.
  lemma CanSettleExactlyWhenNoMarkLost(q: Queue, r: Run, e: EpisodeId, from: int)
    requires IsRun(q, r) && e in Last(r).db.episodes
    ensures CanSettle(q, r, e, from) <==> forall n, j | 0 <= n < |r.actions| :: !LosesMark(r.states[n], r.actions[n], j, e)
  {
    CanSettleExactlyWhenNotStranded(q, r, e, from);
    var last := |r.states| - 1;
    if n, j :| 0 <= n < |r.actions| && LosesMark(r.states[n], r.actions[n], j, e) {
      RunKeepsInv(q, r, n);
      LostMarkStrands(q, r.states[n], r.actions[n], r.states[n + 1], j, e);
      StrandedUntilGone(q, r, n + 1, last, j, e);
      assert Stranded(Last(r), j, e);
    } else {
      forall j ensures !Stranded(Last(r), j, e) {
        StrandedExactlyWhenMarkLost(q, r, last, j, e);
      }
    }
  }
}
