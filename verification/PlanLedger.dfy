/** The history of a plan row accounts for its columns: execution status, result and slot. */
module PlanLedger {
  import opened Wrappers
  import opened JobProtocol
  import opened JobSafety
  import opened JobTheorems

  /** The plan row before and after an event. */
  predicate WritesPlan(e: Event, before: Plan, after: Plan) {
    match e.kind
    case AnalyzingWritten => after == before.(activeJob := e.job, execution := Analyzing)
    case ResultWritten(payload, true) =>
      after == Plan(None, if payload.failed then ExecutionFailed else Complete, true, Some(payload))
    case ResultWritten(_, false) => after == before.(isCurrent := false)
    case FailureWritten => after == before.(activeJob := None, execution := ExecutionFailed)
    case UnclaimedFailed(_, _) => after == before.(activeJob := None, execution := ExecutionFailed)
    case CancellationWritten => after == before.(activeJob := None, execution := ExecutionCancelled)
    case Reconciled => after == before.(activeJob := None, execution := ExecutionCancelled)
    case UnfencedWritten => after == before.(activeJob := None, execution := ExecutionCancelled)
    case Enqueued => after == before.(activeJob := e.job)
    case StaleCleared(_) => after == before.(activeJob := None)
    case _ => after == before
  }

  ghost predicate AccountsPlan(s: System, s': System) {
    && |s.log| <= |s'.log| <= |s.log| + 1 && s.log <= s'.log
    && if |s'.log| > |s.log| then WritesPlan(s'.log[|s.log|], s.plan, s'.plan) else s'.plan == s.plan
  }

  /** A failure is written only of a job that still runs, so never as a cancellation. */
  lemma GuardedPlan(s: System, a: Action)
    requires ActorOf(a).ByWorker? && a.worker in s.workers && IsGuarded(a) && WorkerSound(s.workers[a.worker], s.jobs)
    ensures AccountsPlan(s, WorkerStep(s, a))
  {
    GuardFacts(s.jobs, s.workers[a.worker], !a.Reconcile?);
    hide Guard;
  }

  lemma UnguardedPlan(s: System, a: Action)
    requires ActorOf(a).ByWorker? && a.worker in s.workers && !IsGuarded(a)
    ensures AccountsPlan(s, WorkerStep(s, a))
  {
    hide Claimable, ClaimedJob, FinishedJob, Current;
    match a
    case ClaimUpdate(_, _, _) =>
    case Heartbeat(_, _) =>
    case Finish(_, _, _) =>
    case FailUnclaimed(_, _, _) =>
    case UnfencedCancel(_) =>
    case _ =>
  }

  lemma OthersPlan(s: System, a: Action)
    requires !ActorOf(a).ByWorker?
    ensures AccountsPlan(s, Next(s, a))
  {
    hide WorkerStep, Active;
  }

  /** Every step of every party accounts for the plan row. */
  lemma StepAccountsPlan(s: System, a: Action)
    requires Inv(s)
    ensures AccountsPlan(s, Next(s, a))
  {
    if !ActorOf(a).ByWorker? {
      OthersPlan(s, a);
    } else if a.worker in s.workers {
      assert WorkerSound(s.workers[a.worker], s.jobs);
      assert Next(s, a) == WorkerStep(s, a);
      hide Inv, Next, WorkerStep;
      if IsGuarded(a) {
        GuardedPlan(s, a);
      } else {
        UnguardedPlan(s, a);
      }
    }
  }

  // ---- the execution status ------------------------------------------------------------------------------

  /** The execution status an event writes, if it writes one. */
  function ExecutionOf(kind: Kind): Option<ExecutionStatus> {
    match kind
    case AnalyzingWritten => Some(Analyzing)
    case ResultWritten(payload, true) => Some(if payload.failed then ExecutionFailed else Complete)
    case FailureWritten => Some(ExecutionFailed)
    case UnclaimedFailed(_, _) => Some(ExecutionFailed)
    case CancellationWritten => Some(ExecutionCancelled)
    case Reconciled => Some(ExecutionCancelled)
    case UnfencedWritten => Some(ExecutionCancelled)
    case _ => None
  }

  function LastExecution(log: seq<Event>, before: ExecutionStatus): ExecutionStatus {
    if log == [] then before
    else
      var told := ExecutionOf(log[|log| - 1].kind);
      if told.Some? then told.value else LastExecution(log[..|log| - 1], before)
  }

  /** The last result stored, and whether it was stored in place and so is current. */
  function LastResult(log: seq<Event>, before: (Option<Payload>, bool)): (Option<Payload>, bool) {
    if log == [] then before
    else
      var kind, earlier := log[|log| - 1].kind, LastResult(log[..|log| - 1], before);
      if !kind.ResultWritten? then earlier else if kind.inPlace then (Some(kind.payload), true) else (earlier.0, false)
  }

  /** The plan row's execution status and result are those last written. */
  ghost predicate Told(plan: Plan, log: seq<Event>, first: Plan) {
    && plan.execution == LastExecution(log, first.execution)
    && (plan.payload, plan.isCurrent) == LastResult(log, (first.payload, first.isCurrent))
  }

  lemma ToldStep(e: Event, before: Plan, after: Plan, log: seq<Event>, first: Plan)
    requires WritesPlan(e, before, after) && Told(before, log, first)
    ensures Told(after, log + [e], first)
  {
    assert (log + [e])[..|log|] == log;
  }

  lemma {:induction false} PlanAsLogged(s: System, actions: seq<Action>)
    requires Initial(s)
    ensures Told(Run(s, actions).plan, Run(s, actions).log, s.plan)
  {
    if actions != [] {
      var front, a := actions[..|actions| - 1], actions[|actions| - 1];
      var r, r' := Run(s, front), Run(s, actions);
      PlanAsLogged(s, front);
      RunKeeps(s, front);
      hide Next, Inv, Told, WritesPlan;
      StepAccountsPlan(r, a);
      if |r'.log| > |r.log| {
        assert r'.log == r.log + [r'.log[|r.log|]];
        ToldStep(r'.log[|r.log|], r.plan, r'.plan, r.log, s.plan);
      } else {
        assert r'.log == r.log;
      }
    }
  }
}
