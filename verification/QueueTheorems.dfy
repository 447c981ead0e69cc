/** What interleaved queue calls, workers and operators keep of one plan row. */
module QueueTheorems {
  import opened Wrappers
  import opened JobFrames
  import opened JobProtocol
  import opened JobTheorems

  function Holding(plan: Plan): nat {
    if plan.activeJob.Some? then 1 else 0
  }

  // ---- conservation of the active-job slot ---------------------------------------

  /** Slot and row counts before and after a step balance. */
  predicate Balanced(s: System, s': System) {
    && s'.enqueued + s'.adopted + Holding(s.plan) + s.released
         == s.enqueued + s.adopted + Holding(s'.plan) + s'.released
    && |s'.jobs| + s.enqueued == |s.jobs| + s'.enqueued
  }

  lemma UpdateKeepsCount(jobs: map<JobId, Job>, j: JobId, job: Job)
    requires j in jobs
    ensures |jobs[j := job]| == |jobs|
  {
    assert jobs[j := job].Keys == jobs.Keys;
    assert |jobs[j := job]| == |jobs[j := job].Keys| && |jobs| == |jobs.Keys|;
  }

  lemma GuardedBalances(s: System, id: WorkerId, requireRunning: bool, plan: Plan, kind: Kind)
    requires id in s.workers
    ensures Balanced(s, GuardedWrite(s, id, requireRunning, plan, kind))
  {
  }

  lemma StepConserves(s: System, a: Action)
    ensures Balanced(s, Next(s, a))
  {
    if !ActorOf(a).ByWorker? {
      OthersBalance(s, a);
    } else if a.worker in s.workers {
      hide GuardedWrite, PlanAfter, KindOf, ClaimStep, TokenStep, HeartbeatStep, FinishStep, FailUnclaimedStep,
        UnfencedCancelStep, ReownStep, Current, Balanced;
      if IsGuarded(a) {
        GuardedBalances(s, a.worker, !a.Reconcile?, PlanAfter(s, s.workers[a.worker], a), KindOf(a));
      } else {
        UnguardedBalances(s, a);
      }
    }
  }

  lemma OthersBalance(s: System, a: Action)
    requires !ActorOf(a).ByWorker?
    ensures Balanced(s, Next(s, a))
  {
    hide WorkerStep, Active;
    if (a.OperatorCancel? || a.OperatorRetry?) && a.job in s.jobs {
      UpdateKeepsCount(s.jobs, a.job, Next(s, a).jobs[a.job]);
    }
  }

  lemma ClaimBalances(s: System, id: WorkerId, now: Instant, staleBefore: Instant)
    requires id in s.workers
    ensures Balanced(s, ClaimStep(s, id, now, staleBefore))
  {
    hide Claimable, ClaimedJob;
    var w, s' := s.workers[id], ClaimStep(s, id, now, staleBefore);
    if s'.jobs != s.jobs {
      UpdateKeepsCount(s.jobs, w.job.value, s'.jobs[w.job.value]);
    }
  }

  lemma HeartbeatBalances(s: System, id: WorkerId, now: Instant)
    requires id in s.workers
    ensures Balanced(s, HeartbeatStep(s, id, now))
  {
    var w, s' := s.workers[id], HeartbeatStep(s, id, now);
    if s'.jobs != s.jobs {
      UpdateKeepsCount(s.jobs, w.job.value, s'.jobs[w.job.value]);
    }
  }

  lemma FinishBalances(s: System, id: WorkerId, outcome: Outcome, now: Instant)
    requires id in s.workers
    ensures Balanced(s, FinishStep(s, id, outcome, now))
  {
    hide FinishedJob;
    var w, s' := s.workers[id], FinishStep(s, id, outcome, now);
    if s'.jobs != s.jobs {
      UpdateKeepsCount(s.jobs, w.job.value, s'.jobs[w.job.value]);
    }
  }

  lemma FailUnclaimedBalances(s: System, id: WorkerId, failure: Failure, now: Instant)
    requires id in s.workers
    ensures Balanced(s, FailUnclaimedStep(s, id, failure, now))
  {
    hide FinishedJob;
    var w, s' := s.workers[id], FailUnclaimedStep(s, id, failure, now);
    if s'.jobs != s.jobs {
      UpdateKeepsCount(s.jobs, w.job.value, s'.jobs[w.job.value]);
    }
  }

  lemma UnguardedBalances(s: System, a: Action)
    requires ActorOf(a).ByWorker? && a.worker in s.workers && !IsGuarded(a)
    ensures Balanced(s, WorkerStep(s, a))
  {
    hide ClaimStep, HeartbeatStep, FinishStep, FailUnclaimedStep, Current;
    match a
    case ClaimUpdate(id, now, staleBefore) => ClaimBalances(s, id, now, staleBefore);
    case Heartbeat(id, now) => HeartbeatBalances(s, id, now);
    case Finish(id, outcome, now) => FinishBalances(s, id, outcome, now);
    case FailUnclaimed(id, failure, now) => FailUnclaimedBalances(s, id, failure, now);
    case _ =>
  }

  /**
   The slot `active_job_id` is taken by an enqueue or an executor's adoption and given back by a
   release; every committed enqueue, and nothing else, has left one more job row.
   */
  lemma {:induction false} SlotConservation(s: System, actions: seq<Action>)
    requires Initial(s)
    ensures var r := Run(s, actions);
      && r.enqueued + r.adopted + Holding(s.plan) == r.released + Holding(r.plan)
      && |r.jobs| == |s.jobs| + r.enqueued
      && r.enqueued <= r.released + 1
  {
    if actions != [] {
      var front := actions[..|actions| - 1];
      SlotConservation(s, front);
      StepConserves(Run(s, front), actions[|actions| - 1]);
    }
  }

  /** An enqueue commits exactly when the caller saw no active job and the slot is free; else no row is left. */
  lemma LosingCallerLeavesNothing(s: System, c: CallerId, j: JobId)
    requires j !in s.jobs
    ensures var s' := Next(s, Enqueue(c, j));
      && (j in s'.jobs <==> Cleared(s, c) && s.plan.activeJob.None?)
      && (j in s'.jobs ==> s'.plan.activeJob == Some(j) && s'.jobs == s.jobs[j := NewJob])
      && (j !in s'.jobs ==> s'.jobs == s.jobs && s'.plan == s.plan && s'.log == s.log)
  {
  }

  // ---- at most one active job ----------------------------------------------------

  ghost predicate AtMostOneActive(jobs: map<JobId, Job>) {
    forall a <- jobs, b <- jobs | Active(jobs[a]) && Active(jobs[b]) :: a == b
  }

  /** The job this step makes QUEUED or RUNNING, if any. */
  function Activated(s: System, a: Action): Option<JobId> {
    match a
    case Enqueue(c, j) => if Cleared(s, c) && j !in s.jobs && s.plan.activeJob.None? then Some(j) else None
    case OperatorRetry(j) => if j in s.jobs then Some(j) else None
    case ClaimUpdate(id, _, staleBefore) =>
      if id in s.workers && s.workers[id].phase == Fresh && s.workers[id].job.Some?
         && s.workers[id].job.value in s.jobs
         && Claimable(s.jobs[s.workers[id].job.value], staleBefore)
      then s.workers[id].job else None
    case _ => None
  }

  /** No other job is active at the moment of the activation. */
  ghost predicate Alone(s: System, a: Action) {
    Activated(s, a).Some? ==>
      forall k <- s.jobs | Active(s.jobs[k]) :: k == Activated(s, a).value
  }

  lemma ActiveAfter(s: System, a: Action, k: JobId)
    requires k in Next(s, a).jobs && Active(Next(s, a).jobs[k])
    ensures Activated(s, a) == Some(k) || (k in s.jobs && Active(s.jobs[k]))
  {
    if !ActorOf(a).ByWorker? {
      ActiveAfterOthers(s, a, k);
    } else if a.worker in s.workers {
      WorkerFrame(s, a);
      hide WorkerStep;
      if !IsGuarded(a) {
        ActiveAfterWorker(s, a, k);
      }
    }
  }

  lemma ActiveAfterOthers(s: System, a: Action, k: JobId)
    requires !ActorOf(a).ByWorker? && k in Next(s, a).jobs && Active(Next(s, a).jobs[k])
    ensures Activated(s, a) == Some(k) || (k in s.jobs && Active(s.jobs[k]))
  {
    hide WorkerStep;
  }

  lemma ActiveAfterWorker(s: System, a: Action, k: JobId)
    requires ActorOf(a).ByWorker? && a.worker in s.workers && !IsGuarded(a)
    requires k in WorkerStep(s, a).jobs && Active(WorkerStep(s, a).jobs[k])
    ensures Activated(s, a) == Some(k) || (k in s.jobs && Active(s.jobs[k]))
  {
    hide ClaimedJob, Released, Current;
    match a
    case ClaimUpdate(_, _, _) =>
    case Heartbeat(_, _) =>
    case Finish(_, _, _) =>
    case FailUnclaimed(_, _, _) =>
    case UnfencedCancel(_) =>
    case TokenRead(_) =>
    case CheckCurrent(_) =>
    case Reown(_) =>
  }

  lemma ActivationTakesEffect(s: System, a: Action, k: JobId)
    requires Activated(s, a).Some? && k in s.jobs && Active(s.jobs[k]) && k != Activated(s, a).value
    ensures var jobs := Next(s, a).jobs;
      k in jobs && Active(jobs[k]) && Activated(s, a).value in jobs && Active(jobs[Activated(s, a).value])
  {
  }

  lemma AtMostOneActiveStep(s: System, a: Action)
    requires AtMostOneActive(s.jobs)
    ensures AtMostOneActive(Next(s, a).jobs) <==> Alone(s, a)
  {
    var jobs := Next(s, a).jobs;
    if Alone(s, a) {
      forall x, y | x in jobs && y in jobs && Active(jobs[x]) && Active(jobs[y]) ensures x == y {
        ActiveAfter(s, a, x);
        ActiveAfter(s, a, y);
      }
    } else {
      var k :| k in s.jobs && Active(s.jobs[k]) && k != Activated(s, a).value;
      ActivationTakesEffect(s, a, k);
    }
  }

  ghost predicate AloneThroughout(s: System, actions: seq<Action>) {
    actions != [] ==>
      var front := actions[..|actions| - 1];
      AloneThroughout(s, front) && Alone(Run(s, front), actions[|actions| - 1])
  }

  ghost predicate AtMostOneThroughout(s: System, actions: seq<Action>) {
    && AtMostOneActive(Run(s, actions).jobs)
    && (actions != [] ==> AtMostOneThroughout(s, actions[..|actions| - 1]))
  }

  /**
   A plan row has at most one active job throughout a run exactly when every enqueue, retry and
   claim that made a job active did so while no other job was active.
   */
  lemma {:induction false} AtMostOneActiveIff(s: System, actions: seq<Action>)
    requires AtMostOneActive(s.jobs)
    ensures AtMostOneThroughout(s, actions) <==> AloneThroughout(s, actions)
  {
    if actions != [] {
      var front := actions[..|actions| - 1];
      AtMostOneActiveIff(s, front);
      if AtMostOneActive(Run(s, front).jobs) {
        AtMostOneActiveStep(Run(s, front), actions[|actions| - 1]);
      }
    }
  }

  // ---- the compare-and-swap alone does not ensure it ------------------------------

  function EmptyRow(): System {
    System(map[], Plan(None, ExecutionQueued, true, None),
           map[1 := Worker(Some(0), Fresh, false, None, false, None)], map[], 0, 0, 0, [])
  }

  function OvertakenOpening(): seq<Action> { [ReadActive(7), ReadActive(8), Enqueue(8, 0), ClaimUpdate(1, 10, 0)] }

  function OvertakenEnding(): seq<Action> {
    [TokenRead(1), WriteAnalyzing(1), Persist(1, Payload(5, false), true), Enqueue(7, 1)]
  }

  function Overtaken(): seq<Action> { OvertakenOpening() + OvertakenEnding() }

  /**
   The result write frees the slot while its job is still RUNNING, so a caller whose read came
   before that job was enqueued wins the compare-and-swap: two jobs of one row are active.
   */
  lemma ReleaseBeforeFinishLetsSecondJobIn()
    ensures Initial(EmptyRow()) && AtMostOneActive(EmptyRow().jobs)
    ensures var jobs := Run(EmptyRow(), Overtaken()).jobs;
      0 in jobs && jobs[0].status == Running && 1 in jobs && jobs[1].status == Queued
  {
    var s4 := Run(EmptyRow(), OvertakenOpening());
    OvertakenStart();
    hide Next, Run;
    RunConcat(EmptyRow(), OvertakenOpening(), OvertakenEnding());
    RunOfFour(EmptyRow(), ReadActive(7), ReadActive(8), Enqueue(8, 0), ClaimUpdate(1, 10, 0));
    OvertakenClaim(Next(Next(Next(EmptyRow(), ReadActive(7)), ReadActive(8)), Enqueue(8, 0)));
    RunOfFour(s4, TokenRead(1), WriteAnalyzing(1), Persist(1, Payload(5, false), true), Enqueue(7, 1));
    OvertakenEnd(Next(s4, TokenRead(1)));
  }

  lemma OvertakenStart()
    ensures var s3 := Next(Next(Next(EmptyRow(), ReadActive(7)), ReadActive(8)), Enqueue(8, 0));
      && s3.jobs == map[0 := NewJob] && Cleared(s3, 7)
      && s3.workers == map[1 := Worker(Some(0), Fresh, false, None, false, None)]
  {
  }

  lemma OvertakenClaim(s: System)
    requires s.jobs == map[0 := NewJob] && Cleared(s, 7)
    requires s.workers == map[1 := Worker(Some(0), Fresh, false, None, false, None)]
    ensures var r := Next(Next(s, ClaimUpdate(1, 10, 0)), TokenRead(1));
      && r.jobs.Keys == {0} && r.jobs[0].status == Running && r.jobs[0].version == 1 && Cleared(r, 7)
      && 1 in r.workers && r.workers[1] == Worker(Some(0), Working, true, Some(1), false, Some(1))
  {
    var s4 := Next(s, ClaimUpdate(1, 10, 0));
    assert s4.jobs.Keys == {0} && s4.jobs[0].status == Running && s4.jobs[0].version == 1;
  }

  lemma OvertakenEnd(s: System)
    requires s.jobs.Keys == {0} && s.jobs[0].status == Running && s.jobs[0].version == 1 && Cleared(s, 7)
    requires 1 in s.workers && s.workers[1] == Worker(Some(0), Working, true, Some(1), false, Some(1))
    ensures var r := Next(Next(Next(s, WriteAnalyzing(1)), Persist(1, Payload(5, false), true)), Enqueue(7, 1));
      0 in r.jobs && r.jobs[0].status == Running && 1 in r.jobs && r.jobs[1].status == Queued
  {
    OvertakenWrite(s);
    var s' := Next(s, WriteAnalyzing(1));
    OvertakenPersist(s');
    hide Next;
    OvertakenEnqueue(Next(s', Persist(1, Payload(5, false), true)));
  }

  lemma OvertakenWrite(s: System)
    requires 0 in s.jobs && s.jobs[0].status == Running && s.jobs[0].version == 1
    requires 1 in s.workers && s.workers[1] == Worker(Some(0), Working, true, Some(1), false, Some(1))
    ensures var s' := Next(s, WriteAnalyzing(1)); s'.workers == s.workers && s'.jobs == s.jobs && s'.callers == s.callers
  {
  }

  lemma OvertakenPersist(s: System)
    requires 0 in s.jobs && s.jobs[0].status == Running && s.jobs[0].version == 1
    requires 1 in s.workers && s.workers[1] == Worker(Some(0), Working, true, Some(1), false, Some(1))
    ensures var s' := Next(s, Persist(1, Payload(5, false), true));
      s'.jobs == s.jobs && s'.plan.activeJob == None && s'.callers == s.callers
  {
  }

  lemma OvertakenEnqueue(s: System)
    requires s.jobs.Keys == {0} && s.jobs[0].status == Running && s.plan.activeJob == None && Cleared(s, 7)
    ensures var r := Next(s, Enqueue(7, 1));
      0 in r.jobs && r.jobs[0].status == Running && 1 in r.jobs && r.jobs[1].status == Queued
  {
  }
}
