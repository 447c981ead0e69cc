/** What one step of each party leaves alone. */
module JobFrames {
  import opened Wrappers
  import opened JobProtocol

  /** Either nothing durable has changed, or one event of the actor has been written. */
  predicate Logged(s: System, actor: Actor, s': System) {
    if |s'.log| == |s.log| then s'.log == s.log && s'.jobs == s.jobs && s'.plan == s.plan
    else |s'.log| == |s.log| + 1 && s'.log == s.log + [s'.log[|s.log|]] && s'.log[|s.log|].actor == actor
  }

  /** A worker's step touches only its own memory, and no queue caller. */
  predicate OwnStep(s: System, id: WorkerId, s': System) {
    && s'.callers == s.callers && s'.enqueued == s.enqueued
    && id in s.workers && id in s'.workers && s'.workers == s.workers[id := s'.workers[id]]
    && Logged(s, ByWorker(id), s')
  }

  lemma Recorded(s: System, actor: Actor, job: Option<JobId>, token: Option<nat>, kind: Kind)
    ensures Logged(s, actor, Record(s, actor, job, token, kind))
  {
  }

  lemma MemoryOnly(s: System, id: WorkerId, w: Worker)
    requires id in s.workers
    ensures OwnStep(s, id, SetWorker(s, id, w)) && OwnStep(s, id, s)
  {
    assert s.workers == s.workers[id := s.workers[id]];
  }

  lemma GuardedFrame(s: System, id: WorkerId, requireRunning: bool, plan: Plan, kind: Kind)
    requires id in s.workers
    ensures OwnStep(s, id, GuardedWrite(s, id, requireRunning, plan, kind))
    ensures GuardedWrite(s, id, requireRunning, plan, kind).jobs == s.jobs
  {
    hide Guard;
    MemoryOnly(s, id, Guard(s.jobs, s.workers[id], requireRunning).1);
  }

  lemma ClaimFrame(s: System, id: WorkerId, now: Instant, staleBefore: Instant)
    requires id in s.workers
    ensures OwnStep(s, id, ClaimStep(s, id, now, staleBefore))
  {
    hide Claimable, ClaimedJob;
    MemoryOnly(s, id, s.workers[id]);
  }

  lemma TokenFrame(s: System, id: WorkerId)
    requires id in s.workers
    ensures OwnStep(s, id, TokenStep(s, id))
  {
    MemoryOnly(s, id, s.workers[id]);
  }

  lemma HeartbeatFrame(s: System, id: WorkerId, now: Instant)
    requires id in s.workers
    ensures OwnStep(s, id, HeartbeatStep(s, id, now))
    ensures HeartbeatStep(s, id, now).workers == s.workers
  {
    MemoryOnly(s, id, s.workers[id]);
  }

  lemma FinishFrame(s: System, id: WorkerId, outcome: Outcome, now: Instant)
    requires id in s.workers
    ensures OwnStep(s, id, FinishStep(s, id, outcome, now))
  {
    hide FinishedJob;
    MemoryOnly(s, id, s.workers[id]);
  }

  lemma FailUnclaimedFrame(s: System, id: WorkerId, failure: Failure, now: Instant)
    requires id in s.workers
    ensures OwnStep(s, id, FailUnclaimedStep(s, id, failure, now))
  {
    hide FinishedJob, Released;
    MemoryOnly(s, id, s.workers[id]);
  }

  lemma UnfencedCancelFrame(s: System, id: WorkerId)
    requires id in s.workers
    ensures OwnStep(s, id, UnfencedCancelStep(s, id))
  {
    hide Released;
    MemoryOnly(s, id, s.workers[id]);
  }

  lemma ReownFrame(s: System, id: WorkerId)
    requires id in s.workers
    ensures OwnStep(s, id, ReownStep(s, id))
  {
    MemoryOnly(s, id, s.workers[id]);
  }

  lemma WorkerFrame(s: System, a: Action)
    requires ActorOf(a).ByWorker? && a.worker in s.workers
    ensures Next(s, a) == WorkerStep(s, a) && OwnStep(s, a.worker, WorkerStep(s, a))
    ensures a.Heartbeat? ==> Next(s, a).workers == s.workers
    ensures IsGuarded(a) ==> Next(s, a).jobs == s.jobs
  {
    hide OwnStep, GuardedWrite, PlanAfter, KindOf, ClaimStep, TokenStep, HeartbeatStep, FinishStep, FailUnclaimedStep,
      UnfencedCancelStep, ReownStep, Current, SetWorker;
    if IsGuarded(a) {
      GuardedFrame(s, a.worker, !a.Reconcile?, PlanAfter(s, s.workers[a.worker], a), KindOf(a));
    } else {
      match a
      case ClaimUpdate(id, now, staleBefore) => ClaimFrame(s, id, now, staleBefore);
      case TokenRead(id) => TokenFrame(s, id);
      case Heartbeat(id, now) => HeartbeatFrame(s, id, now);
      case CheckCurrent(id) => MemoryOnly(s, id, Current(s.jobs, s.workers[id]).1);
      case UnfencedCancel(id) => UnfencedCancelFrame(s, id);
      case Finish(id, outcome, now) => FinishFrame(s, id, outcome, now);
      case Reown(id) => ReownFrame(s, id);
      case FailUnclaimed(id, failure, now) => FailUnclaimedFrame(s, id, failure, now);
    }
  }

  lemma EnvironmentFrame(s: System, a: Action)
    requires !ActorOf(a).ByWorker?
    ensures Next(s, a).workers == s.workers && Logged(s, ActorOf(a), Next(s, a))
  {
    hide Active, Cleared;
  }

  /** Every step logs what it does, and registers or forgets no worker. */
  lemma StepFrame(s: System, a: Action)
    ensures Logged(s, ActorOf(a), Next(s, a)) && Next(s, a).workers.Keys == s.workers.Keys
  {
    if !ActorOf(a).ByWorker? {
      EnvironmentFrame(s, a);
    } else if a.worker in s.workers {
      WorkerFrame(s, a);
      hide Next, WorkerStep, Logged;
      assert s.workers[a.worker := Next(s, a).workers[a.worker]].Keys == s.workers.Keys;
    }
  }

  /** Another party's step, or its own heartbeat, leaves a worker's memory alone. */
  lemma OthersFrame(s: System, a: Action, id: WorkerId)
    requires id in s.workers && (ActorOf(a) != ByWorker(id) || a.Heartbeat?)
    ensures id in Next(s, a).workers && Next(s, a).workers[id] == s.workers[id]
  {
    if !ActorOf(a).ByWorker? {
      EnvironmentFrame(s, a);
    } else if a.worker in s.workers {
      WorkerFrame(s, a);
      hide Next, WorkerStep, Logged;
    }
  }

  /** Only a caller's own step concerns what it has read. */
  lemma CallersFrame(s: System, a: Action)
    requires !ActorOf(a).ByCaller?
    ensures Next(s, a).callers == s.callers
  {
    if ActorOf(a).ByWorker? && a.worker in s.workers {
      WorkerFrame(s, a);
      hide WorkerStep;
    }
  }
}
