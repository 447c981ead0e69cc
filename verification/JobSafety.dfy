/** What every run of the job protocol keeps. */
module JobSafety {
  import opened Wrappers
  import opened JobProtocol

  // ---- how one step may change the job rows -------------------------------------

  /** Versions never fall, jobs never vanish, and RUNNING is entered only with a fresh version. */
  ghost predicate LegalJob(before: Job, after: Job) {
    && before.version <= after.version
    && (after.status == Running && before.version == after.version ==> before.status == Running)
  }

  ghost predicate LegalJobs(before: map<JobId, Job>, after: map<JobId, Job>) {
    && before.Keys <= after.Keys
    && (forall j <- before :: LegalJob(before[j], after[j]))
  }

  // ---- the log ------------------------------------------------------------------

  predicate RunningKind(kind: Kind) {
    || kind.Beat? || kind.AnalyzingWritten? || kind.ResultWritten? || kind.FailureWritten?
    || kind.CancellationWritten? || kind.Finished?
  }

  /** Writes whose WHERE clause demands the token and a RUNNING job. */
  predicate NeedsRunning(e: Event) {
    e.job.Some? && RunningKind(e.kind)
  }

  /** Writes that take the job out of RUNNING. */
  predicate Closes(e: Event) {
    e.job.Some? && (e.kind.Finished? || e.kind.OperatorCancelled? || e.kind.OperatorRetried?)
  }

  ghost predicate EventSound(e: Event, jobs: map<JobId, Job>) {
    e.job.Some? ==>
      && e.job.value in jobs
      && e.version <= jobs[e.job.value].version
      && (e.token.Some? ==> e.token.value == e.version)
      && (NeedsRunning(e) ==> e.token.Some?)
      && (Closes(e) ==> jobs[e.job.value].version > e.version || jobs[e.job.value].status != Running)
  }

  /** Two writes to one job, `early` before `late`. */
  ghost predicate Ordered(early: Event, late: Event) {
    early.job.Some? && early.job == late.job ==>
      && early.version <= late.version
      && (late.kind.Claimed? ==> early.version < late.version)
      && (Closes(early) && NeedsRunning(late) ==> early.version < late.version)
  }

  ghost predicate LogSound(log: seq<Event>, jobs: map<JobId, Job>) {
    && (forall e <- log :: EventSound(e, jobs))
    && (forall i, k | 0 <= i < k < |log| :: Ordered(log[i], log[k]))
  }

  lemma LogStays(log: seq<Event>, before: map<JobId, Job>, after: map<JobId, Job>)
    requires LogSound(log, before) && LegalJobs(before, after)
    ensures LogSound(log, after)
  {
    forall e | e in log ensures EventSound(e, after) {
      assert EventSound(e, before);
      if e.job.Some? {
        assert LegalJob(before[e.job.value], after[e.job.value]);
      }
    }
  }

  lemma LogExtends(log: seq<Event>, e: Event, before: map<JobId, Job>, after: map<JobId, Job>)
    requires LogSound(log, before) && LegalJobs(before, after)
    requires EventSound(e, after)
    requires e.job.Some? ==> e.version == after[e.job.value].version
    requires e.job.Some? && e.kind.Claimed? && e.job.value in before ==>
               before[e.job.value].version < e.version
    requires NeedsRunning(e) ==>
               e.job.value in before && before[e.job.value].version == e.version
               && before[e.job.value].status == Running
    ensures LogSound(log + [e], after)
  {
    LogStays(log, before, after);
    forall i, k | 0 <= i < k < |log + [e]| ensures Ordered((log + [e])[i], (log + [e])[k]) {
      if k == |log| {
        assert log[i] in log && EventSound(log[i], before);
        if log[i].job.Some? {
          assert LegalJob(before[log[i].job.value], after[log[i].job.value]);
        }
      }
    }
  }

  // ---- worker memory ------------------------------------------------------------

  ghost predicate WorkerSound(w: Worker, jobs: map<JobId, Job>) {
    && (w.phase == Fresh || w.phase == Skipped ==>
          !w.owner && w.token.None? && !w.claimLost && w.won.None?)
    && (w.phase == AwaitingToken ==>
          w.job.Some? && w.won.Some? && w.owner && w.token.None? && !w.claimLost)
    && (w.phase == Working && w.job.Some? ==> w.token.Some? && w.won.Some? && (w.owner || w.claimLost))
    && (w.phase == Working && w.job.None? ==> w.token.None? && w.won.None?)
    && (w.won.Some? ==>
          && w.job.Some? && w.job.value in jobs && 1 <= w.won.value <= jobs[w.job.value].version
          && (w.token.Some? ==> w.won.value <= w.token.value <= jobs[w.job.value].version))
  }

  /** No two claims of one job won the same version. */
  ghost predicate WonDistinct(workers: map<WorkerId, Worker>) {
    forall a <- workers, b <- workers ::
      a != b && workers[a].job == workers[b].job && workers[a].won.Some? ==> workers[a].won != workers[b].won
  }

  ghost predicate Inv(s: System) {
    && (forall id <- s.workers :: WorkerSound(s.workers[id], s.jobs))
    && WonDistinct(s.workers)
    && LogSound(s.log, s.jobs)
  }

  lemma WorkersStay(workers: map<WorkerId, Worker>, before: map<JobId, Job>, after: map<JobId, Job>)
    requires forall id <- workers :: WorkerSound(workers[id], before)
    requires LegalJobs(before, after)
    ensures forall id <- workers :: WorkerSound(workers[id], after)
  {
    forall id | id in workers ensures WorkerSound(workers[id], after) {
      assert WorkerSound(workers[id], before);
      if workers[id].won.Some? {
        assert LegalJob(before[workers[id].job.value], after[workers[id].job.value]);
      }
    }
  }

  lemma UpdateIsLegal(jobs: map<JobId, Job>, j: JobId, job: Job)
    requires j in jobs ==> LegalJob(jobs[j], job)
    ensures LegalJobs(jobs, jobs[j := job])
  {
    forall k | k in jobs ensures LegalJob(jobs[k], jobs[j := job][k]) {
    }
  }

  lemma GuardFacts(jobs: map<JobId, Job>, w: Worker, requireRunning: bool)
    requires WorkerSound(w, jobs)
    ensures var (ok, w') := Guard(jobs, w, requireRunning);
      && WorkerSound(w', jobs) && w'.won == w.won && w'.job == w.job && w'.token == w.token
      && (ok && w.phase == Working && w.job.Some? ==>
            w.job.value in jobs && Holds(jobs[w.job.value], w.token, requireRunning) && !w.claimLost)
  {
  }

  lemma MemoryUpdateKeeps(s: System, id: WorkerId, w: Worker)
    requires Inv(s) && id in s.workers && WorkerSound(w, s.jobs)
    requires w.job == s.workers[id].job && w.won == s.workers[id].won
    ensures Inv(SetWorker(s, id, w))
  {
  }

  lemma PlanWriteKeeps(s: System, id: WorkerId, plan: Plan, kind: Kind)
    requires Inv(s) && id in s.workers
    requires !kind.Claimed? && !Closes(Event(ByWorker(id), Some(0), 0, None, kind))
    requires var w := s.workers[id];
      w.job.Some? ==> w.job.value in s.jobs && Holds(s.jobs[w.job.value], w.token, RunningKind(kind))
    ensures Inv(Record(SetPlan(s, plan), ByWorker(id), s.workers[id].job, s.workers[id].token, kind))
  {
    var w := s.workers[id];
    LogExtends(s.log, Event(ByWorker(id), w.job, VersionOf(s.jobs, w.job), w.token, kind), s.jobs, s.jobs);
  }

  lemma GuardedWriteKeeps(s: System, id: WorkerId, requireRunning: bool, plan: Plan, kind: Kind)
    requires Inv(s) && id in s.workers
    requires !kind.Claimed? && !Closes(Event(ByWorker(id), Some(0), 0, None, kind))
    requires RunningKind(kind) == requireRunning
    ensures Inv(GuardedWrite(s, id, requireRunning, plan, kind))
    ensures GuardedWrite(s, id, requireRunning, plan, kind).jobs == s.jobs
  {
    var w := s.workers[id];
    GuardFacts(s.jobs, w, requireRunning);
    var (ok, w') := Guard(s.jobs, w, requireRunning);
    MemoryUpdateKeeps(s, id, w');
    if ok && w.phase == Working {
      PlanWriteKeeps(SetWorker(s, id, w'), id, plan, kind);
    }
  }

  lemma ClaimKeeps(s: System, id: WorkerId, now: Instant, staleBefore: Instant)
    requires Inv(s) && id in s.workers
    ensures var s' := ClaimStep(s, id, now, staleBefore); Inv(s') && LegalJobs(s.jobs, s'.jobs)
  {
    var w := s.workers[id];
    JobsStayLegal(s.jobs);
    assert WorkerSound(w, s.jobs);
    hide Inv, LegalJobs;
    if w.phase != Fresh {
    } else if w.job.Some? && w.job.value in s.jobs && Claimable(s.jobs[w.job.value], staleBefore) {
      ClaimedKeeps(s, id, now);
    } else {
      var w' := if w.job.None? then w.(owner := true, phase := Working) else w.(owner := false, phase := Skipped);
      MemoryUpdateKeeps(s, id, w');
    }
  }

  /** The state a claim that matches leaves. */
  function ClaimedState(s: System, id: WorkerId, now: Instant): System
    requires id in s.workers && s.workers[id].job.Some? && s.workers[id].job.value in s.jobs
  {
    var w := s.workers[id];
    var job := ClaimedJob(s.jobs[w.job.value], now);
    var s' := SetWorker(s.(jobs := s.jobs[w.job.value := job]), id,
                        w.(owner := true, phase := AwaitingToken, won := Some(job.version)));
    Record(s', ByWorker(id), w.job, None, Claimed(now))
  }

  lemma ClaimedKeeps(s: System, id: WorkerId, now: Instant)
    requires Inv(s) && id in s.workers && s.workers[id].phase == Fresh
    requires s.workers[id].job.Some? && s.workers[id].job.value in s.jobs
    ensures Inv(ClaimedState(s, id, now)) && LegalJobs(s.jobs, ClaimedState(s, id, now).jobs)
  {
    var w, s' := s.workers[id], ClaimedState(s, id, now);
    var job := ClaimedJob(s.jobs[w.job.value], now);
    assert WorkerSound(w, s.jobs);
    WonIsNew(s, id, s'.workers[id], w.job.value);
    hide LogSound, WonDistinct;
    UpdateIsLegal(s.jobs, w.job.value, job);
    WorkersStay(s.workers, s.jobs, s'.jobs);
    LogExtends(s.log, Event(ByWorker(id), w.job, job.version, None, Claimed(now)), s.jobs, s'.jobs);
  }

  /** A version above the stored one has been won by no other worker of the job. */
  lemma WonIsNew(s: System, id: WorkerId, w: Worker, j: JobId)
    requires Inv(s) && id in s.workers && j in s.jobs && w.job == Some(j)
    requires w.won.Some? && w.won.value > s.jobs[j].version
    ensures WonDistinct(s.workers[id := w])
  {
    hide LogSound;
    forall a | a in s.workers && a != id && s.workers[a].job == w.job && s.workers[a].won.Some?
      ensures s.workers[a].won != w.won
    {
      assert WorkerSound(s.workers[a], s.jobs);
    }
  }

  lemma FinishKeeps(s: System, id: WorkerId, outcome: Outcome, now: Instant)
    requires Inv(s) && id in s.workers
    ensures var s' := FinishStep(s, id, outcome, now); Inv(s') && LegalJobs(s.jobs, s'.jobs)
  {
    var w := s.workers[id];
    var s' := FinishStep(s, id, outcome, now);
    if w.phase == Working && w.job.Some? && w.owner && w.job.value in s.jobs
       && Holds(s.jobs[w.job.value], w.token, true) {
      var job := FinishedJob(s.jobs[w.job.value], outcome, now);
      UpdateIsLegal(s.jobs, w.job.value, job);
      WorkersStay(s.workers, s.jobs, s'.jobs);
      LogExtends(s.log, Event(ByWorker(id), w.job, job.version, w.token, Finished(outcome, now)), s.jobs, s'.jobs);
    }
  }

  lemma HeartbeatKeeps(s: System, id: WorkerId, now: Instant)
    requires Inv(s) && id in s.workers
    ensures var s' := HeartbeatStep(s, id, now); Inv(s') && LegalJobs(s.jobs, s'.jobs)
  {
    var w := s.workers[id];
    var s' := HeartbeatStep(s, id, now);
    if s' != s {
      UpdateIsLegal(s.jobs, w.job.value, s'.jobs[w.job.value]);
      WorkersStay(s.workers, s.jobs, s'.jobs);
      LogExtends(s.log, s'.log[|s.log|], s.jobs, s'.jobs);
    }
  }

  /** One more event and one row rewritten legally, no worker's memory touched. */
  lemma RowWriteKeeps(s: System, s': System, j: JobId, e: Event)
    requires Inv(s) && s'.workers == s.workers && s'.log == s.log + [e] && e.job == Some(j)
    requires j in s'.jobs && s'.jobs == s.jobs[j := s'.jobs[j]] && (j in s.jobs ==> LegalJob(s.jobs[j], s'.jobs[j]))
    requires EventSound(e, s'.jobs) && e.version == s'.jobs[j].version && !e.kind.Claimed? && !RunningKind(e.kind)
    ensures Inv(s') && LegalJobs(s.jobs, s'.jobs)
  {
    hide LogSound, LegalJob, LegalJobs, WorkerSound, WonDistinct, EventSound;
    UpdateIsLegal(s.jobs, j, s'.jobs[j]);
    WorkersStay(s.workers, s.jobs, s'.jobs);
    LogExtends(s.log, e, s.jobs, s'.jobs);
  }

  lemma JobsStayLegal(jobs: map<JobId, Job>)
    ensures LegalJobs(jobs, jobs)
  {
  }

  /** A write of the plan row that names no job, or one whose rows it leaves alone. */
  lemma PlainWriteKeeps(s: System, s': System, e: Event)
    requires Inv(s) && s'.workers == s.workers && s'.jobs == s.jobs && s'.log == s.log + [e]
    requires EventSound(e, s.jobs) && (e.job.Some? ==> e.version == s.jobs[e.job.value].version)
    requires !e.kind.Claimed? && !NeedsRunning(e)
    ensures Inv(s') && LegalJobs(s.jobs, s'.jobs)
  {
    hide LogSound, LegalJobs, WorkerSound, WonDistinct, EventSound;
    JobsStayLegal(s.jobs);
    LogExtends(s.log, e, s.jobs, s'.jobs);
  }

  lemma UnfencedCancelKeeps(s: System, id: WorkerId)
    requires Inv(s) && id in s.workers
    ensures Inv(UnfencedCancelStep(s, id)) && LegalJobs(s.jobs, UnfencedCancelStep(s, id).jobs)
  {
    var s' := UnfencedCancelStep(s, id);
    JobsStayLegal(s.jobs);
    hide Inv, LegalJobs, Released;
    if s' != s {
      PlainWriteKeeps(s, s', s'.log[|s.log|]);
    }
  }

  lemma FailUnclaimedKeeps(s: System, id: WorkerId, failure: Failure, now: Instant)
    requires Inv(s) && id in s.workers
    ensures var s' := FailUnclaimedStep(s, id, failure, now); Inv(s') && LegalJobs(s.jobs, s'.jobs)
  {
    var s' := FailUnclaimedStep(s, id, failure, now);
    JobsStayLegal(s.jobs);
    hide Inv, LegalJobs, Released;
    if s' != s {
      RowWriteKeeps(s, s', s.workers[id].job.value, s'.log[|s.log|]);
    }
  }

  lemma TokenReadKeeps(s: System, id: WorkerId)
    requires Inv(s) && id in s.workers
    ensures Inv(TokenStep(s, id)) && TokenStep(s, id).jobs == s.jobs
  {
    var w := s.workers[id];
    assert WorkerSound(w, s.jobs);
    hide Inv;
    if w.phase == AwaitingToken && w.job.Some? && w.job.value in s.jobs {
      MemoryUpdateKeeps(s, id, w.(token := Some(s.jobs[w.job.value].version), phase := Working));
    }
  }

  lemma CheckCurrentKeeps(s: System, id: WorkerId)
    requires Inv(s) && id in s.workers
    ensures Inv(SetWorker(s, id, Current(s.jobs, s.workers[id]).1))
  {
    assert WorkerSound(s.workers[id], s.jobs);
    hide Inv;
    MemoryUpdateKeeps(s, id, Current(s.jobs, s.workers[id]).1);
  }

  lemma ReownKeeps(s: System, id: WorkerId)
    requires Inv(s) && id in s.workers
    ensures Inv(ReownStep(s, id)) && ReownStep(s, id).jobs == s.jobs
  {
    var w := s.workers[id];
    assert WorkerSound(w, s.jobs);
    hide Inv;
    if w.phase == Working && w.token.Some? {
      MemoryUpdateKeeps(s, id, w.(owner := true));
    }
  }

  lemma OperatorKeeps(s: System, a: Action)
    requires Inv(s) && (a.OperatorCancel? || a.OperatorRetry?)
    ensures Inv(Next(s, a)) && LegalJobs(s.jobs, Next(s, a).jobs)
  {
    var s' := Next(s, a);
    JobsStayLegal(s.jobs);
    hide Inv, LegalJobs;
    if s' != s {
      RowWriteKeeps(s, s', a.job, s'.log[|s.log|]);
    }
  }

  lemma EnqueueKeeps(s: System, c: CallerId, j: JobId)
    requires Inv(s)
    ensures Inv(EnqueueStep(s, c, j)) && LegalJobs(s.jobs, EnqueueStep(s, c, j).jobs)
  {
    var s' := EnqueueStep(s, c, j);
    JobsStayLegal(s.jobs);
    if s'.log != s.log {
      hide Inv, LegalJobs;
      RowWriteKeeps(s, s', j, s'.log[|s.log|]);
    } else {
      hide LogSound, WonDistinct, WorkerSound, LegalJobs;
    }
  }

  lemma ClearStaleKeeps(s: System, c: CallerId, stale: JobId)
    requires Inv(s)
    ensures Inv(ClearStaleStep(s, c, stale)) && LegalJobs(s.jobs, ClearStaleStep(s, c, stale).jobs)
  {
    var s' := ClearStaleStep(s, c, stale);
    JobsStayLegal(s.jobs);
    if s'.log != s.log {
      hide Inv, LegalJobs;
      PlainWriteKeeps(s, s', s'.log[|s.log|]);
    } else {
      hide LogSound, WonDistinct, WorkerSound, LegalJobs;
    }
  }

  lemma ReadActiveKeeps(s: System, c: CallerId)
    requires Inv(s)
    ensures Inv(ReadActiveStep(s, c)) && LegalJobs(s.jobs, ReadActiveStep(s, c).jobs)
  {
    JobsStayLegal(s.jobs);
    hide LogSound, WonDistinct, WorkerSound, LegalJobs, Active;
  }

  lemma EnvironmentKeeps(s: System, a: Action)
    requires Inv(s) && !ActorOf(a).ByWorker?
    ensures Inv(Next(s, a)) && LegalJobs(s.jobs, Next(s, a).jobs)
  {
    hide Inv, LegalJobs, ReadActiveStep, EnqueueStep, ClearStaleStep, CancelStep, RetryStep;
    match a
    case OperatorCancel(_) => OperatorKeeps(s, a);
    case OperatorRetry(_) => OperatorKeeps(s, a);
    case ReadActive(c) => ReadActiveKeeps(s, c);
    case Enqueue(c, j) => EnqueueKeeps(s, c, j);
    case ClearStale(c, stale) => ClearStaleKeeps(s, c, stale);
  }

  lemma StepKeeps(s: System, a: Action)
    requires Inv(s)
    ensures Inv(Next(s, a)) && LegalJobs(s.jobs, Next(s, a).jobs)
  {
    JobsStayLegal(s.jobs);
    hide Inv, LegalJobs, GuardedWrite, PlanAfter;
    if !ActorOf(a).ByWorker? {
      EnvironmentKeeps(s, a);
    } else if a.worker in s.workers {
      if IsGuarded(a) {
        GuardedWriteKeeps(s, a.worker, !a.Reconcile?, PlanAfter(s, s.workers[a.worker], a), KindOf(a));
      } else {
        UnguardedKeeps(s, a);
      }
    }
  }

  lemma UnguardedKeeps(s: System, a: Action)
    requires Inv(s) && ActorOf(a).ByWorker? && !IsGuarded(a) && a.worker in s.workers
    ensures Inv(Next(s, a)) && LegalJobs(s.jobs, Next(s, a).jobs)
  {
    JobsStayLegal(s.jobs);
    hide Inv, LegalJobs, ClaimStep, TokenStep, HeartbeatStep, FinishStep, FailUnclaimedStep, UnfencedCancelStep, ReownStep,
      Current;
    match a
    case ClaimUpdate(id, now, staleBefore) => ClaimKeeps(s, id, now, staleBefore);
    case Heartbeat(id, now) => HeartbeatKeeps(s, id, now);
    case Finish(id, outcome, now) => FinishKeeps(s, id, outcome, now);
    case UnfencedCancel(id) => UnfencedCancelKeeps(s, id);
    case FailUnclaimed(id, failure, now) => FailUnclaimedKeeps(s, id, failure, now);
    case TokenRead(id) => TokenReadKeeps(s, id);
    case CheckCurrent(id) => CheckCurrentKeeps(s, id);
    case Reown(id) => ReownKeeps(s, id);
  }
}
