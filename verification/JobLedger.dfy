/** The history of a plan row accounts for the rows: what each job's row holds is what was last written of it. */
module JobLedger {
  import opened Wrappers
  import opened JobProtocol
  import opened JobFrames
  import opened JobSafety
  import opened JobTheorems

  // ---- what one event does to the row of its job ------------------------------------------------------

  /** The row of the event's job before and after it. */
  predicate Writes(e: Event, before: Job, after: Job) {
    match e.kind
    case Claimed(at) => after == Job(Running, before.version + 1, Some(at), Some(at), None, None, before.retries)
    case Beat(at) => after == before.(heartbeatAt := Some(at))
    case Finished(Success, at) => after == before.(status := Succeeded, completedAt := Some(at))
    case Finished(Cancelling, at) => after == before.(status := JobStatus.Cancelled, completedAt := Some(at))
    case Finished(Failing(f), at) => after == before.(status := Failed, completedAt := Some(at), failure := Some(f))
    case UnclaimedFailed(f, at) => after == before.(status := Failed, completedAt := Some(at), failure := Some(f))
    case OperatorCancelled => after == before.(status := JobStatus.Cancelled)
    case OperatorRetried => after == before.(status := Queued, retries := before.retries + 1, failure := None)
    case Enqueued => false
    case _ => after == before
  }

  /** Row `j` changes only by an event of its own, and comes into being only by its enqueue. */
  ghost predicate Accounts(s: System, s': System, j: JobId) {
    && |s.log| <= |s'.log| <= |s.log| + 1 && s.log <= s'.log
    && var own := |s'.log| > |s.log| && s'.log[|s.log|].job == Some(j);
      if j in s.jobs then
        j in s'.jobs && if own then Writes(s'.log[|s.log|], s.jobs[j], s'.jobs[j]) else s'.jobs[j] == s.jobs[j]
      else j in s'.jobs ==>
        own && s'.log[|s.log|].kind == Enqueued && s'.jobs[j] == Job(Queued, 0, None, None, None, None, 0)
  }

  lemma NothingWritten(s: System, s': System, j: JobId)
    requires s'.jobs == s.jobs && s'.log == s.log
    ensures Accounts(s, s', j)
  {
  }

  lemma ClaimAccounts(s: System, id: WorkerId, now: Instant, staleBefore: Instant, j: JobId)
    requires id in s.workers
    ensures Accounts(s, ClaimStep(s, id, now, staleBefore), j)
  {
    hide Claimable;
  }

  lemma HeartbeatAccounts(s: System, id: WorkerId, now: Instant, j: JobId)
    requires id in s.workers
    ensures Accounts(s, HeartbeatStep(s, id, now), j)
  {
  }

  lemma FinishAccounts(s: System, id: WorkerId, outcome: Outcome, now: Instant, j: JobId)
    requires id in s.workers
    ensures Accounts(s, FinishStep(s, id, outcome, now), j)
  {
  }

  lemma FailUnclaimedAccounts(s: System, id: WorkerId, failure: Failure, now: Instant, j: JobId)
    requires id in s.workers
    ensures Accounts(s, FailUnclaimedStep(s, id, failure, now), j)
  {
    hide Released;
  }

  lemma UnfencedCancelAccounts(s: System, id: WorkerId, j: JobId)
    requires id in s.workers
    ensures Accounts(s, UnfencedCancelStep(s, id), j)
  {
    hide Released;
  }

  lemma GuardedAccounts(s: System, id: WorkerId, requireRunning: bool, plan: Plan, kind: Kind, j: JobId)
    requires id in s.workers
    requires kind.AnalyzingWritten? || kind.ResultWritten? || kind.FailureWritten? || kind.CancellationWritten?
             || kind.Reconciled?
    ensures Accounts(s, GuardedWrite(s, id, requireRunning, plan, kind), j)
  {
    hide Guard;
  }

  lemma OperatorAccounts(s: System, a: Action, j: JobId)
    requires a.OperatorCancel? || a.OperatorRetry?
    ensures Accounts(s, Next(s, a), j)
  {
    hide WorkerStep;
  }

  lemma CallerAccounts(s: System, a: Action, j: JobId)
    requires ActorOf(a).ByCaller?
    ensures Accounts(s, Next(s, a), j)
  {
    hide WorkerStep, Active;
  }

  lemma WorkerAccounts(s: System, a: Action, j: JobId)
    requires ActorOf(a).ByWorker? && a.worker in s.workers
    ensures Accounts(s, WorkerStep(s, a), j)
  {
    hide GuardedWrite, PlanAfter, ClaimStep, HeartbeatStep, FinishStep, FailUnclaimedStep, UnfencedCancelStep, Current,
      Accounts;
    if IsGuarded(a) {
      GuardedAccounts(s, a.worker, !a.Reconcile?, PlanAfter(s, s.workers[a.worker], a), KindOf(a), j);
    } else {
      match a
      case ClaimUpdate(id, now, staleBefore) => ClaimAccounts(s, id, now, staleBefore, j);
      case Heartbeat(id, now) => HeartbeatAccounts(s, id, now, j);
      case Finish(id, outcome, now) => FinishAccounts(s, id, outcome, now, j);
      case FailUnclaimed(id, failure, now) => FailUnclaimedAccounts(s, id, failure, now, j);
      case UnfencedCancel(id) => UnfencedCancelAccounts(s, id, j);
      case TokenRead(id) => NothingWritten(s, TokenStep(s, id), j);
      case CheckCurrent(id) => NothingWritten(s, SetWorker(s, id, Current(s.jobs, s.workers[id]).1), j);
      case Reown(id) => NothingWritten(s, ReownStep(s, id), j);
    }
  }

  /** Every step of every party accounts for the rows. */
  lemma StepAccounts(s: System, a: Action, j: JobId)
    ensures Accounts(s, Next(s, a), j)
  {
    if ActorOf(a).ByOperator? {
      OperatorAccounts(s, a, j);
    } else if ActorOf(a).ByCaller? {
      CallerAccounts(s, a, j);
    } else if a.worker in s.workers {
      WorkerAccounts(s, a, j);
      hide WorkerStep;
    } else {
      NothingWritten(s, s, j);
    }
  }

  // ---- the status ---------------------------------------------------------------------------------------

  predicate SetsStatus(kind: Kind) {
    || kind.Claimed? || kind.Finished? || kind.UnclaimedFailed? || kind.OperatorCancelled? || kind.OperatorRetried?
    || kind.Enqueued?
  }

  predicate IsStatusWrite(e: Event, j: JobId) { e.job == Some(j) && SetsStatus(e.kind) }

  /** The last event that set the status of job `j`. */
  ghost predicate LastStatusWrite(log: seq<Event>, m: nat, j: JobId) {
    && m < |log| && IsStatusWrite(log[m], j)
    && forall i | m < i < |log| :: !IsStatusWrite(log[i], j)
  }

  /** What the row holds after that event. */
  ghost predicate Shows(kind: Kind, job: Job) {
    match kind
    case Claimed(_) => job.status == Running
    case Finished(Success, at) => job.status == Succeeded && job.completedAt == Some(at)
    case Finished(Cancelling, at) => job.status == JobStatus.Cancelled && job.completedAt == Some(at)
    case Finished(Failing(f), at) => job.status == Failed && job.completedAt == Some(at) && job.failure == Some(f)
    case UnclaimedFailed(f, at) => job.status == Failed && job.completedAt == Some(at) && job.failure == Some(f)
    case OperatorCancelled => job.status == JobStatus.Cancelled
    case OperatorRetried => job.status == Queued && job.failure == None
    case Enqueued => job.status == Queued
    case _ => true
  }

  lemma FrontWrite(log: seq<Event>, more: seq<Event>, m: nat, j: JobId)
    requires log <= more && m < |log| && LastStatusWrite(more, m, j)
    ensures LastStatusWrite(log, m, j)
  {
    assert forall i | 0 <= i < |log| :: log[i] == more[i];
  }

  lemma StatusStep(s: System, s': System, m: nat, j: JobId)
    requires Accounts(s, s', j) && LastStatusWrite(s'.log, m, j) && j in s'.jobs
    requires m < |s.log| ==> j in s.jobs && Shows(s.log[m].kind, s.jobs[j])
    ensures Shows(s'.log[m].kind, s'.jobs[j])
  {
    if m < |s.log| {
      assert s'.log[m] == s.log[m];
      if |s'.log| > |s.log| {
        assert !IsStatusWrite(s'.log[|s.log|], j);
      }
    }
  }

  lemma LoggedJobExists(s: System, actions: seq<Action>, m: nat, j: JobId)
    requires Initial(s) && m < |Run(s, actions).log| && Run(s, actions).log[m].job == Some(j)
    ensures j in Run(s, actions).jobs
  {
    RunKeeps(s, actions);
    assert EventSound(Run(s, actions).log[m], Run(s, actions).jobs);
  }

  /** In every run the status of a job, with its failure and end, is the one the last event that set it names. */
  lemma {:induction false} StatusAsLogged(s: System, actions: seq<Action>, m: nat, j: JobId)
    requires Initial(s) && LastStatusWrite(Run(s, actions).log, m, j)
    ensures j in Run(s, actions).jobs && Shows(Run(s, actions).log[m].kind, Run(s, actions).jobs[j])
  {
    LoggedJobExists(s, actions, m, j);
    if actions != [] {
      var front, a := actions[..|actions| - 1], actions[|actions| - 1];
      var r, r' := Run(s, front), Run(s, actions);
      StepAccounts(r, a, j);
      hide Next, Shows;
      if m < |r.log| {
        FrontWrite(r.log, r'.log, m, j);
        StatusAsLogged(s, front, m, j);
      }
      StatusStep(r, r', m, j);
    }
  }

  /** A job of which nothing has been written is as it was. */
  lemma {:induction false} UnloggedIsUnchanged(s: System, actions: seq<Action>, j: JobId)
    requires Initial(s) && j in s.jobs && forall e <- Run(s, actions).log :: e.job != Some(j)
    ensures j in Run(s, actions).jobs && Run(s, actions).jobs[j] == s.jobs[j]
  {
    if actions != [] {
      var front, a := actions[..|actions| - 1], actions[|actions| - 1];
      var r, r' := Run(s, front), Run(s, actions);
      StepAccounts(r, a, j);
      hide Next;
      assert forall e <- r.log :: e in r'.log;
      UnloggedIsUnchanged(s, front, j);
      if |r'.log| > |r.log| {
        assert r'.log[|r.log|] in r'.log;
      }
    }
  }

  // ---- signs of life ------------------------------------------------------------------------------------

  /** A claim or heartbeat of job `j`. */
  predicate IsSign(e: Event, j: JobId) { e.job == Some(j) && (e.kind.Claimed? || e.kind.Beat?) }

  function SignTime(e: Event): Instant
    requires e.kind.Claimed? || e.kind.Beat?
  {
    e.kind.at
  }

  ghost predicate LastSign(log: seq<Event>, m: nat, j: JobId) {
    m < |log| && IsSign(log[m], j) && forall i | m < i < |log| :: !IsSign(log[i], j)
  }

  ghost predicate Unsigned(log: seq<Event>, j: JobId) { forall e <- log :: !IsSign(e, j) }

  lemma SignStep(s: System, s': System, m: nat, j: JobId)
    requires Accounts(s, s', j) && LastSign(s'.log, m, j) && j in s'.jobs
    requires m < |s.log| ==> j in s.jobs && s.jobs[j].heartbeatAt == Some(SignTime(s'.log[m]))
    ensures s'.jobs[j].heartbeatAt == Some(SignTime(s'.log[m]))
  {
    if m < |s.log| && |s'.log| > |s.log| {
      assert !IsSign(s'.log[|s.log|], j);
    }
  }

  /** The liveness column holds the time of the last claim or heartbeat. */
  lemma {:induction false} HeartbeatAsLogged(s: System, actions: seq<Action>, m: nat, j: JobId)
    requires Initial(s) && LastSign(Run(s, actions).log, m, j)
    ensures j in Run(s, actions).jobs && Run(s, actions).jobs[j].heartbeatAt == Some(SignTime(Run(s, actions).log[m]))
  {
    LoggedJobExists(s, actions, m, j);
    if actions != [] {
      var front, a := actions[..|actions| - 1], actions[|actions| - 1];
      var r, r' := Run(s, front), Run(s, actions);
      StepAccounts(r, a, j);
      hide Next;
      if m < |r.log| {
        assert forall i | 0 <= i < |r.log| :: r.log[i] == r'.log[i];
        assert LastSign(r.log, m, j);
        HeartbeatAsLogged(s, front, m, j);
      }
      SignStep(r, r', m, j);
    }
  }

  lemma UnsignedStep(s: System, s': System, j: JobId)
    requires Accounts(s, s', j) && Unsigned(s'.log, j) && j in s.jobs
    ensures s'.jobs[j].heartbeatAt == s.jobs[j].heartbeatAt && s'.jobs[j].startedAt == s.jobs[j].startedAt
    ensures Unsigned(s.log, j)
  {
    assert forall e <- s.log :: e in s'.log;
    if |s'.log| > |s.log| {
      assert s'.log[|s.log|] in s'.log;
    }
  }

  /** Without a claim or heartbeat in the run the columns are those the job had at first. */
  lemma {:induction false} UnsignedKeepsTimes(s: System, actions: seq<Action>, j: JobId)
    requires Initial(s) && j in s.jobs && Unsigned(Run(s, actions).log, j)
    ensures j in Run(s, actions).jobs
    ensures var job := Run(s, actions).jobs[j];
      job.heartbeatAt == s.jobs[j].heartbeatAt && job.startedAt == s.jobs[j].startedAt
  {
    if actions != [] {
      var front, a := actions[..|actions| - 1], actions[|actions| - 1];
      var r, r' := Run(s, front), Run(s, actions);
      StepAccounts(r, a, j);
      RunKeeps(s, front);
      hide Next, Inv;
      assert r.log <= r'.log && forall e <- r.log :: e in r'.log;
      UnsignedKeepsTimes(s, front, j);
      UnsignedStep(r, r', j);
    }
  }

  // ---- which jobs a claim takes -------------------------------------------------------------------------

  /** The claim takes the job: it becomes RUNNING under the next version, and the history says who took it and when. */
  ghost predicate Takes(s: System, id: WorkerId, now: Instant, staleBefore: Instant, j: JobId) {
    var s' := Next(s, ClaimUpdate(id, now, staleBefore));
    && j in s.jobs && j in s'.jobs && s'.jobs[j].status == Running && s'.jobs[j].version == s.jobs[j].version + 1
    && s'.log == s.log + [Event(ByWorker(id), Some(j), s'.jobs[j].version, None, Claimed(now))]
  }

  /** The claim leaves rows and history as they were. */
  ghost predicate Misses(s: System, id: WorkerId, now: Instant, staleBefore: Instant) {
    var s' := Next(s, ClaimUpdate(id, now, staleBefore)); s'.jobs == s.jobs && s'.plan == s.plan && s'.log == s.log
  }

  predicate MayClaim(s: System, id: WorkerId, j: JobId) {
    id in s.workers && s.workers[id].phase == Fresh && s.workers[id].job == Some(j) && j in s.jobs
  }

  /** One claim of one row: by status, and for a RUNNING row by its times. */
  lemma ClaimDecides(s: System, id: WorkerId, now: Instant, staleBefore: Instant, j: JobId)
    requires MayClaim(s, id, j)
    ensures var job := s.jobs[j];
      match job.status
      case Queued => Takes(s, id, now, staleBefore, j)
      case Failed => Takes(s, id, now, staleBefore, j)
      case Succeeded => Misses(s, id, now, staleBefore)
      case Cancelled => Misses(s, id, now, staleBefore)
      case Running =>
        if job.heartbeatAt.Some? then
          if job.heartbeatAt.value < staleBefore then Takes(s, id, now, staleBefore, j) else Misses(s, id, now, staleBefore)
        else if job.startedAt.Some? && job.startedAt.value < staleBefore then Takes(s, id, now, staleBefore, j)
        else Misses(s, id, now, staleBefore)
  {
  }

  /** A worker without a token, its claim not yet begun or its token not yet read, fails exactly a job still queued. */
  lemma UnclaimedFailureDecides(s: System, id: WorkerId, failure: Failure, now: Instant, j: JobId)
    requires id in s.workers && s.workers[id].job == Some(j) && s.workers[id].token.None? && j in s.jobs
    requires s.workers[id].phase == Fresh || s.workers[id].phase == AwaitingToken
    ensures var s' := Next(s, FailUnclaimed(id, failure, now));
      if s.jobs[j].status == Queued
      then && s'.jobs == s.jobs[j := s.jobs[j].(status := Failed, completedAt := Some(now), failure := Some(failure))]
           && s'.plan.activeJob.None? && s'.log[..|s'.log| - 1] == s.log
      else s' == s
  {
  }

  /**
   A RUNNING job is taken from its worker exactly when its last sign of life in the run, a claim or a
   heartbeat, came before the deadline; a claim that does not take it changes nothing.
   */
  lemma RunningIsTakenIff(s: System, actions: seq<Action>, m: nat, id: WorkerId, now: Instant, staleBefore: Instant,
                          j: JobId)
    requires Initial(s) && MayClaim(Run(s, actions), id, j) && LastSign(Run(s, actions).log, m, j)
    requires Run(s, actions).jobs[j].status == Running
    ensures var r := Run(s, actions);
      if SignTime(r.log[m]) < staleBefore then Takes(r, id, now, staleBefore, j) else Misses(r, id, now, staleBefore)
  {
    HeartbeatAsLogged(s, actions, m, j);
    ClaimDecides(Run(s, actions), id, now, staleBefore, j);
  }

  /** The last status write says which jobs that do not run are taken: queued, retried and failed ones, and no others. */
  lemma IdleIsTakenIff(s: System, actions: seq<Action>, m: nat, id: WorkerId, now: Instant, staleBefore: Instant, j: JobId)
    requires Initial(s) && MayClaim(Run(s, actions), id, j) && LastStatusWrite(Run(s, actions).log, m, j)
    ensures var r := Run(s, actions);
      match r.log[m].kind
      case Enqueued => Takes(r, id, now, staleBefore, j)
      case OperatorRetried => Takes(r, id, now, staleBefore, j)
      case UnclaimedFailed(_, _) => Takes(r, id, now, staleBefore, j)
      case Finished(Failing(_), _) => Takes(r, id, now, staleBefore, j)
      case Finished(Success, _) => Misses(r, id, now, staleBefore)
      case Finished(Cancelling, _) => Misses(r, id, now, staleBefore)
      case OperatorCancelled => Misses(r, id, now, staleBefore)
      case _ => true
  {
    StatusAsLogged(s, actions, m, j);
    ClaimDecides(Run(s, actions), id, now, staleBefore, j);
    hide Takes, Misses, MayClaim, Initial, Run, LastStatusWrite;
  }

  /** A RUNNING job that came into the run running, and has given no sign in it, is judged by the columns it came with. */
  lemma InheritedIsTakenIff(s: System, actions: seq<Action>, id: WorkerId, now: Instant, staleBefore: Instant, j: JobId)
    requires Initial(s) && j in s.jobs && MayClaim(Run(s, actions), id, j)
    requires Unsigned(Run(s, actions).log, j) && Run(s, actions).jobs[j].status == Running
    ensures var r := Run(s, actions);
      var last := if s.jobs[j].heartbeatAt.Some? then s.jobs[j].heartbeatAt else s.jobs[j].startedAt;
      if last.Some? && last.value < staleBefore then Takes(r, id, now, staleBefore, j) else Misses(r, id, now, staleBefore)
  {
    UnsignedKeepsTimes(s, actions, j);
    ClaimDecides(Run(s, actions), id, now, staleBefore, j);
    hide Takes, Misses, MayClaim, Initial, Run, Unsigned;
  }

  // ---- success is final -----------------------------------------------------------------------------------

  predicate Ends(kind: Kind) { kind.Finished? && !kind.outcome.Failing? }

  ghost predicate RetriedBetween(log: seq<Event>, i: nat, k: nat, j: JobId) {
    exists m | i < m < k && m < |log| :: log[m].job == Some(j) && log[m].kind.OperatorRetried?
  }

  lemma StillRetried(log: seq<Event>, more: seq<Event>, i: nat, k: nat, k': nat, j: JobId)
    requires log <= more && k <= k' && RetriedBetween(log, i, k, j)
    ensures RetriedBetween(more, i, k', j)
  {
    var m :| i < m < k && m < |log| && log[m].job == Some(j) && log[m].kind.OperatorRetried?;
    assert more[m] == log[m];
  }

  lemma NotYetRetried(log: seq<Event>, more: seq<Event>, i: nat, j: JobId)
    requires log <= more && !RetriedBetween(more, i, |more|, j)
    ensures !RetriedBetween(log, i, |log|, j)
  {
    forall m | i < m < |log| ensures !(log[m].job == Some(j) && log[m].kind.OperatorRetried?) {
      assert more[m] == log[m];
    }
  }

  lemma OperatorWrites(s: System, a: Action)
    requires ActorOf(a).ByOperator? && |Next(s, a).log| > |s.log|
    ensures var kind := Next(s, a).log[|s.log|].kind; kind.OperatorCancelled? || kind.OperatorRetried?
  {
    hide WorkerStep;
  }

  lemma FinalStep(s: System, a: Action, s': System, i: nat, j: JobId)
    requires Inv(s) && s' == Next(s, a) && j in s'.jobs && i < |s'.log|
    requires s'.log[i].job == Some(j) && Ends(s'.log[i].kind) && !RetriedBetween(s'.log, i, |s'.log|, j)
    requires i < |s.log| ==> j in s.jobs && Terminal(s.jobs[j])
    ensures Terminal(s'.jobs[j])
  {
    hide Next, Inv;
    StepAccounts(s, a, j);
    if ActorOf(a).ByOperator? {
      if |s'.log| > |s.log| {
        OperatorWrites(s, a);
      }
    } else if i < |s.log| {
      TerminalJobIsFrozen(s, a, j);
    }
  }

  lemma {:induction false} StaysFinal(s: System, actions: seq<Action>, i: nat, j: JobId)
    requires Initial(s) && i < |Run(s, actions).log|
    requires Run(s, actions).log[i].job == Some(j) && Ends(Run(s, actions).log[i].kind)
    requires !RetriedBetween(Run(s, actions).log, i, |Run(s, actions).log|, j)
    ensures j in Run(s, actions).jobs && Terminal(Run(s, actions).jobs[j])
  {
    LoggedJobExists(s, actions, i, j);
    if actions != [] {
      var front, a := actions[..|actions| - 1], actions[|actions| - 1];
      var r := Run(s, front);
      RunKeeps(s, front);
      StepFrame(r, a);
      assert forall m | 0 <= m < |r.log| :: Next(r, a).log[m] == r.log[m];
      hide Next, Inv, Terminal;
      if i < |r.log| {
        NotYetRetried(r.log, Next(r, a).log, i, j);
        StaysFinal(s, front, i, j);
      }
      FinalStep(r, a, Next(r, a), i, j);
    }
  }

  lemma ClaimNeedsLive(s: System, a: Action, j: JobId)
    requires Inv(s) && j in s.jobs && Terminal(s.jobs[j])
    requires |Next(s, a).log| > |s.log| && Next(s, a).log[|s.log|].job == Some(j)
    ensures !Next(s, a).log[|s.log|].kind.Claimed?
  {
    StepAccounts(s, a, j);
    if ActorOf(a).ByOperator? {
    } else {
      TerminalJobIsFrozen(s, a, j);
    }
  }

  /** A job that has ended SUCCEEDED or CANCELLED is claimed again only after an operator's retry of it. */
  lemma {:induction false} EndedIsClaimedAfterRetry(s: System, actions: seq<Action>, i: nat, k: nat, j: JobId)
    requires Initial(s) && i < k < |Run(s, actions).log|
    requires var log := Run(s, actions).log;
      log[i].job == Some(j) == log[k].job && Ends(log[i].kind) && log[k].kind.Claimed?
    ensures RetriedBetween(Run(s, actions).log, i, k, j)
  {
    if actions != [] {
      var front, a := actions[..|actions| - 1], actions[|actions| - 1];
      var r := Run(s, front);
      RunKeeps(s, front);
      StepFrame(r, a);
      assert forall m | 0 <= m < |r.log| :: Next(r, a).log[m] == r.log[m];
      hide Next, Inv;
      if k < |r.log| {
        EndedIsClaimedAfterRetry(s, front, i, k, j);
        StillRetried(r.log, Next(r, a).log, i, k, k, j);
      } else if RetriedBetween(r.log, i, k, j) {
        StillRetried(r.log, Next(r, a).log, i, k, k, j);
      } else {
        StaysFinal(s, front, i, j);
        ClaimNeedsLive(r, a, j);
      }
    }
  }
}
