/**
 The inductive invariant of the transcription protocol: job and episode status stay coupled
 in every interleaving, and only the current claim of a job can move either.
 */
module JobSafety {
  import opened Options
  import opened JobTables
  import opened JobProtocol

  // ---------------------------------------------------------------- the invariant

  ghost predicate IdsOk(s: System) {
    && (forall e | e in s.db.episodes :: e in s.used)
    && (forall j | j in s.db.jobs :: s.db.jobs[j].episode in s.used && s.db.jobs[j].kind == TRANSCRIBE)
    && (forall j | j in s.marked :: j in s.db.jobs && s.db.jobs[j].status.JobFailed?)
    && (forall e | e in s.db.transcripts :: e in s.db.episodes)
  }

  ghost predicate WorkerOk(s: System, me: Worker) {
    && me.job in s.db.jobs
    && s.db.jobs[me.job].episode == me.episode
    && me.token <= s.db.jobs[me.job].attempts
    && (me.phase.MarkDue? ==> s.db.jobs[me.job].status.JobFailed? && s.db.jobs[me.job].attempts == me.token && me.job !in s.marked)
    && (me.phase.EpisodeGone? ==> me.episode !in s.db.episodes)
  }

  ghost predicate WorkersOk(s: System) {
    && (forall w | w in s.workers :: WorkerOk(s, s.workers[w]))
    && (forall v, w | v in s.workers && w in s.workers && s.workers[v].phase.MarkDue? && s.workers[w].phase.MarkDue?
                      && s.workers[v].job == s.workers[w].job :: v == w)
  }

  ghost predicate Inv(s: System) {
    IdsOk(s) && WorkersOk(s) && Coupled(s)
  }

  // ---------------------------------------------------------------- coupling, by kind of change

  // Nothing is owed or paid.
  lemma SameDebts(s: System, s': System)
    requires Coupled(s)
    requires forall j, e :: Owes(s', j, e) <==> Owes(s, j, e)
    requires s'.db.episodes.Keys == s.db.episodes.Keys
    requires forall e | e in s.db.episodes :: Active(s'.db.episodes[e]) == Active(s.db.episodes[e])
    ensures Coupled(s')
  {
    forall e | e in s'.db.episodes && Active(s'.db.episodes[e]) ensures exists j :: Owes(s', j, e) {
      var j :| Owes(s, j, e);
      assert Owes(s', j, e);
    }
  }

  // Job j pays its debt and its episode, if still there, settles.
  lemma DebtPaid(s: System, j: JobId, s': System)
    requires Coupled(s) && Owing(s, j)
    requires forall k, e :: Owes(s', k, e) <==> Owes(s, k, e) && k != j
    requires s'.db.episodes.Keys == s.db.episodes.Keys
    requires var mine := s.db.jobs[j].episode;
      && (forall e | e in s.db.episodes && e != mine :: s'.db.episodes[e] == s.db.episodes[e])
      && (mine in s.db.episodes ==> !Active(s'.db.episodes[mine]))
    ensures Coupled(s')
  {
    var mine := s.db.jobs[j].episode;
    assert Owes(s, j, mine);
    forall e | e in s'.db.episodes && Active(s'.db.episodes[e]) ensures exists k :: Owes(s', k, e) {
      var k :| Owes(s, k, e);
      assert Owes(s', k, e);
    }
  }

  lemma EnqueueCouples(s: System, id: JobId, on: EpisodeId, now: int)
    requires Inv(s)
    ensures Inv(s.(db := EnqueueTranscriptionJob(s.db, id, TRANSCRIBE, on, now).0))
  {
    var s' := s.(db := EnqueueTranscriptionJob(s.db, id, TRANSCRIBE, on, now).0);
    if on in s.db.episodes && !Active(s.db.episodes[on]) && id !in s.db.jobs {
      assert forall k, e :: Owes(s', k, e) <==> Owes(s, k, e) || (k == id && e == on);
      forall e | e in s'.db.episodes && Active(s'.db.episodes[e]) ensures exists j :: Owes(s', j, e) {
        if e == on {
          assert Owes(s', id, e);
        } else {
          var j :| Owes(s, j, e);
          assert Owes(s', j, e);
        }
      }
      assert forall w | w in s.workers :: s.workers[w].job != id;
    }
  }

  lemma EpisodeRowsCouple(s: System, id: EpisodeId)
    requires Inv(s)
    ensures id !in s.used ==> Inv(s.(db := CreateEpisode(s.db, id), used := s.used + {id}))
    ensures Inv(s.(db := DeleteEpisode(s.db, id)))
  {
    var made := s.(db := CreateEpisode(s.db, id), used := s.used + {id});
    var gone := s.(db := DeleteEpisode(s.db, id));
    assert forall j, e :: Owes(gone, j, e) <==> Owes(s, j, e);
    assert forall j, e :: Owes(made, j, e) <==> Owes(s, j, e);
    forall e | e in gone.db.episodes && Active(gone.db.episodes[e]) ensures exists j :: Owes(gone, j, e) {
      var j :| Owes(s, j, e);
      assert Owes(gone, j, e);
    }
    if id !in s.used {
      forall e | e in made.db.episodes && Active(made.db.episodes[e]) ensures exists j :: Owes(made, j, e) {
        var j :| Owes(s, j, e);
        assert Owes(made, j, e);
      }
      assert forall w | w in s.workers :: s.workers[w].episode in s.used;
    }
  }

  // ---------------------------------------------------------------- worker bookkeeping

  // Workers other than w keep their standing when the rows they rely on keep theirs.
  lemma OthersStand(s: System, w: WorkerId, s': System)
    requires WorkersOk(s)
    requires forall v | v in s'.workers && v != w :: v in s.workers && s'.workers[v] == s.workers[v]
    requires s'.db.episodes.Keys <= s.db.episodes.Keys
    requires forall j | j in s.db.jobs ::
      && j in s'.db.jobs
      && s'.db.jobs[j].episode == s.db.jobs[j].episode
      && s'.db.jobs[j].attempts >= s.db.jobs[j].attempts
      && (s.db.jobs[j].status.JobFailed? ==> s'.db.jobs[j] == s.db.jobs[j])
    requires forall j | j in s'.marked && j !in s.marked :: w in s.workers && s.workers[w].phase.MarkDue? && s.workers[w].job == j
    requires w in s'.workers ==> WorkerOk(s', s'.workers[w])
    requires w in s'.workers && s'.workers[w].phase.MarkDue? ==>
      forall v | v in s.workers && v != w && s.workers[v].phase.MarkDue? :: s.workers[v].job != s'.workers[w].job
    ensures WorkersOk(s')
  {
  }

  // ---------------------------------------------------------------- steps

  lemma ClaimKeeps(q: Queue, s: System, w: WorkerId, id: JobId, now: int, s': System)
    requires Inv(s) && Step(q, s, Claim(w, id, now), s')
    ensures Inv(s')
  {
    assert forall j, e :: Owes(s', j, e) <==> Owes(s, j, e);
    SameDebts(s, s');
    OthersStand(s, w, s');
  }

  // A worker that only moves on, with the tables as they are.
  lemma MoveKeeps(s: System, w: WorkerId, s': System)
    requires Inv(s) && w in s.workers
    requires s' == Done(s, w) || s' == Goto(s, w, Failing) || s' == Goto(s, w, Transcribing)
      || (s' == Goto(s, w, EpisodeGone) && s.workers[w].episode !in s.db.episodes)
    ensures Inv(s')
  {
    assert forall j, e :: Owes(s', j, e) <==> Owes(s, j, e);
    SameDebts(s, s');
    OthersStand(s, w, s');
  }

  lemma FailKeeps(s: System, w: WorkerId, cause: string)
    requires Inv(s) && w in s.workers
    ensures Inv(FailThenMark(s, w, cause))
  {
    var me := s.workers[w];
    if HoldsClaim(s.db, me.job, me.token) {
      var s' := FailThenMark(s, w, cause);
      assert forall j, e :: Owes(s', j, e) <==> Owes(s, j, e);
      SameDebts(s, s');
      OthersStand(s, w, s');
    } else {
      MoveKeeps(s, w, Done(s, w));
    }
  }

  lemma ProgressKeeps(s: System, w: WorkerId, s': System)
    requires Inv(s) && w in s.workers
    requires var me := s.workers[w];
      s' == s.(db := SettleEpisodeTranscript(s.db, me.job, me.token, me.episode, None, TranscriptProcessing).0)
    ensures Inv(s')
  {
    var me := s.workers[w];
    if HoldsClaim(s.db, me.job, me.token) {
      assert Owes(s, me.job, me.episode);
      assert forall j, e :: Owes(s', j, e) <==> Owes(s, j, e);
      SameDebts(s, s');
      OthersStand(s, w, s');
    }
  }

  lemma SettleKeeps(s: System, w: WorkerId, transcript: Option<Transcript>, status: TranscriptStatus)
    requires Inv(s) && w in s.workers && !Active(status)
    ensures var me := s.workers[w];
      Inv(s.(db := SettleAndCompleteJob(s.db, me.job, me.token, me.episode, transcript, status).0))
  {
    var me := s.workers[w];
    var r := SettleAndCompleteJob(s.db, me.job, me.token, me.episode, transcript, status);
    if r.1.Ok? {
      var s' := s.(db := r.0);
      assert forall j, e :: Owes(s', j, e) <==> Owes(s, j, e) && j != me.job;
      DebtPaid(s, me.job, s');
      OthersStand(s, w, s');
    }
  }

  // CompleteJob settles nothing, so it is only for a job whose episode is gone for good.
  lemma AcknowledgeKeeps(s: System, w: WorkerId)
    requires Inv(s) && w in s.workers && s.workers[w].phase.EpisodeGone?
    ensures Inv(Done(s.(db := CompleteJob(s.db, s.workers[w].job, s.workers[w].token).0), w))
  {
    var me := s.workers[w];
    if HoldsClaim(s.db, me.job, me.token) {
      var s' := Done(s.(db := CompleteJob(s.db, me.job, me.token).0), w);
      assert forall j, e :: Owes(s', j, e) <==> Owes(s, j, e) && j != me.job;
      DebtPaid(s, me.job, s');
      OthersStand(s, w, s');
    } else {
      MoveKeeps(s, w, Done(s, w));
    }
  }

  lemma RescheduleKeeps(s: System, w: WorkerId, runAfter: int, cause: string)
    requires Inv(s) && w in s.workers
    ensures Inv(Done(s.(db := RescheduleJob(s.db, s.workers[w].job, s.workers[w].token, runAfter, cause).0), w))
  {
    var me := s.workers[w];
    if HoldsClaim(s.db, me.job, me.token) {
      var s' := Done(s.(db := RescheduleJob(s.db, me.job, me.token, runAfter, cause).0), w);
      assert forall j, e :: Owes(s', j, e) <==> Owes(s, j, e);
      SameDebts(s, s');
      OthersStand(s, w, s');
    } else {
      MoveKeeps(s, w, Done(s, w));
    }
  }

  lemma MarkFailedKeeps(q: Queue, s: System, w: WorkerId, s': System)
    requires Inv(s) && Step(q, s, MarkFailed(w), s')
    ensures Inv(s')
  {
    var me := s.workers[w];
    assert WorkerOk(s, me);
    assert s'.marked == s.marked + {me.job};
    assert forall j, e :: Owes(s', j, e) <==> Owes(s, j, e) && j != me.job;
    DebtPaid(s, me.job, s');
    OthersStand(s, w, s');
  }

  lemma StepKeepsInv(q: Queue, s: System, a: Action, s': System)
    requires Inv(s) && Step(q, s, a, s')
    ensures Inv(s')
  {
    match a
    case NewEpisode(id) => EpisodeRowsCouple(s, id);
    case DropEpisode(id) => EpisodeRowsCouple(s, id);
    case Enqueue(id, on, now) => EnqueueCouples(s, id, on, now);
    case Claim(w, id, now) => ClaimKeeps(q, s, w, id, now, s');
    case DeadLetter(w) => FailKeeps(s, w, "dbqueue: exceeded max attempts");
    case LookUp(w) => MoveKeeps(s, w, s');
    case MarkProgress(w) => ProgressKeeps(s, w, s');
    case WorkFails(w) => MoveKeeps(s, w, s');
    case Settle(w, transcript, reported) =>
      var status := if transcript.Some? then TranscriptDone else TranscriptNone;
      SettleKeeps(s, w, transcript, status);
      var me := s.workers[w];
      MoveKeeps(s.(db := SettleAndCompleteJob(s.db, me.job, me.token, me.episode, transcript, status).0), w, s');
    case Acknowledge(w) => AcknowledgeKeeps(s, w);
    case Nack(w, runAfter, cause) =>
      FailKeeps(s, w, cause);
      RescheduleKeeps(s, w, runAfter, cause);
    case MarkFailed(w) => MarkFailedKeeps(q, s, w, s');
    case Vanish(w) => MoveKeeps(s, w, s');
  }

  lemma {:induction false} RunKeepsInv(q: Queue, r: Run, i: nat)
    requires IsRun(q, r) && i < |r.states|
    ensures Inv(r.states[i])
  {
    if i == 0 {
    } else {
      RunKeepsInv(q, r, i - 1);
      StepKeepsInv(q, r.states[i - 1], r.actions[i - 1], r.states[i]);
    }
  }

  // Over every run, whatever is reclaimed, lost or late.
  lemma JobEpisodeCoupling(q: Queue, r: Run)
    requires IsRun(q, r)
    ensures forall i | 0 <= i < |r.states| :: Coupled(r.states[i])
  {
    forall i | 0 <= i < |r.states| ensures Coupled(r.states[i]) {
      RunKeepsInv(q, r, i);
    }
  }
}
