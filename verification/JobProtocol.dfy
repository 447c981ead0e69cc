/**
 The fenced Stage 5.1 job protocol as a labelled transition system.

 One plan row, any number of processing jobs of that row, any number of workers,
 queue callers and operators.  Every action is one SQL statement or one transaction;
 an action that is not enabled, or whose conditional UPDATE matches no row, changes
 only the actor's own memory.  Workers follow no program counter beyond their claim
 phase, so every order in which the executor's code can issue these transactions is
 covered.
 */
module JobProtocol {
  import opened Wrappers

  type JobId = nat
  type WorkerId = nat
  type CallerId = nat
  type Instant = int

  datatype JobStatus = Queued | Running | Succeeded | Failed | Cancelled

  datatype Failure = Failure(code: string, message: string)

  /** The durable columns of one processing job. */
  datatype Job = Job(
    status: JobStatus,
    version: nat,
    heartbeatAt: Option<Instant>,
    startedAt: Option<Instant>,
    completedAt: Option<Instant>,
    failure: Option<Failure>,
    retries: nat)

  datatype ExecutionStatus =
    ExecutionQueued | Analyzing | Complete | ExecutionFailed | ExecutionCancelled

  /** A planner result; `failed` is the planner's own FAILED verdict. */
  datatype Payload = Payload(fingerprint: nat, failed: bool)

  datatype Plan = Plan(
    activeJob: Option<JobId>,
    execution: ExecutionStatus,
    isCurrent: bool,
    payload: Option<Payload>)

  /** `AwaitingToken` lies between the committed claim UPDATE and the token SELECT. */
  datatype Phase = Fresh | AwaitingToken | Working | Skipped

  /** One executor's memory.  `won` is a history variable: the version its claim UPDATE wrote. */
  datatype Worker = Worker(
    job: Option<JobId>,
    phase: Phase,
    owner: bool,
    token: Option<nat>,
    claimLost: bool,
    won: Option<nat>)

  datatype Outcome = Success | Failing(failure: Failure) | Cancelling

  datatype Kind =
    | Claimed(at: Instant) | Beat(at: Instant) | AnalyzingWritten | ResultWritten(payload: Payload, inPlace: bool) | FailureWritten
    | CancellationWritten | Reconciled | UnfencedWritten | Finished(outcome: Outcome, at: Instant)
    | UnclaimedFailed(failure: Failure, at: Instant) | OperatorCancelled | OperatorRetried | Enqueued | StaleCleared(stale: JobId)

  datatype Actor = ByWorker(worker: WorkerId) | ByOperator | ByCaller(caller: CallerId)

  /** One durable write: who made it, the job's stored version then, and the token it held. */
  datatype Event = Event(
    actor: Actor, job: Option<JobId>, version: nat, token: Option<nat>, kind: Kind)

  /** `callers` says of each queue caller whether its last active-job SELECT came back empty. */
  datatype System = System(
    jobs: map<JobId, Job>,
    plan: Plan,
    workers: map<WorkerId, Worker>,
    callers: map<CallerId, bool>,
    enqueued: nat,
    adopted: nat,
    released: nat,
    log: seq<Event>)

  datatype Action =
    | ClaimUpdate(worker: WorkerId, now: Instant, staleBefore: Instant)
    | TokenRead(worker: WorkerId)
    | Heartbeat(worker: WorkerId, now: Instant)
    | CheckCurrent(worker: WorkerId)
    | WriteAnalyzing(worker: WorkerId)
    | Persist(worker: WorkerId, payload: Payload, inPlace: bool)
    | WriteFailed(worker: WorkerId)
    | WriteCancelled(worker: WorkerId)
    | Reconcile(worker: WorkerId)
    | UnfencedCancel(worker: WorkerId)
    | Finish(worker: WorkerId, outcome: Outcome, now: Instant)
    | Reown(worker: WorkerId)
    | FailUnclaimed(worker: WorkerId, failure: Failure, now: Instant)
    | OperatorCancel(job: JobId)
    | OperatorRetry(job: JobId)
    | ReadActive(caller: CallerId)
    | Enqueue(caller: CallerId, job: JobId)
    | ClearStale(caller: CallerId, stale: JobId)

  function ActorOf(a: Action): Actor {
    match a
    case OperatorCancel(_) => ByOperator
    case OperatorRetry(_) => ByOperator
    case ReadActive(c) => ByCaller(c)
    case Enqueue(c, _) => ByCaller(c)
    case ClearStale(c, _) => ByCaller(c)
    case _ => ByWorker(a.worker)
  }

  // ---- the executor's statements ------------------------------------------------

  /** The WHERE clause of the claim UPDATE. */
  predicate Claimable(job: Job, staleBefore: Instant) {
    || job.status == Queued
    || job.status == Failed
    || (job.status == Running
        && if job.heartbeatAt.Some? then job.heartbeatAt.value < staleBefore
           else job.startedAt.Some? && job.startedAt.value < staleBefore)
  }

  function ClaimedJob(job: Job, now: Instant): Job {
    job.(status := Running, startedAt := Some(now), heartbeatAt := Some(now),
         version := job.version + 1, failure := None, completedAt := None)
  }

  predicate Holds(job: Job, token: Option<nat>, requireRunning: bool) {
    token == Some(job.version) && (requireRunning ==> job.status == Running)
  }

  /** `_fence_claim`: whether the no-op UPDATE matched, and the worker's memory after it. */
  function Fence(jobs: map<JobId, Job>, w: Worker, requireRunning: bool): (r: (bool, Worker)) {
    if w.job.None? then (true, w)
    else if !w.owner || w.token.None? then (false, w.(claimLost := true))
    else if w.job.value in jobs && Holds(jobs[w.job.value], w.token, requireRunning) then (true, w)
    else if w.job.value !in jobs || Some(jobs[w.job.value].version) != w.token then
      (false, w.(owner := false, claimLost := true))
    else (false, w)
  }

  function StatusOf(jobs: map<JobId, Job>, w: Worker): Option<JobStatus> {
    if w.job.Some? && w.job.value in jobs then Some(jobs[w.job.value].status) else None
  }

  /** `_claim_guard`. */
  function Guard(jobs: map<JobId, Job>, w: Worker, requireRunning: bool): (r: (bool, Worker)) {
    if w.claimLost then (false, w)
    else if w.job.None? then (true, w)
    else if w.owner && w.token.Some? then Fence(jobs, w, requireRunning)
    else (StatusOf(jobs, w) != Some(Running), w)
  }

  /** `_claim_is_current`. */
  function Current(jobs: map<JobId, Job>, w: Worker): (r: (bool, Worker)) {
    if w.claimLost then (false, w)
    else if w.job.None? then (true, w)
    else if w.owner && w.token.Some? then
      if w.job.value in jobs && w.token == Some(jobs[w.job.value].version) then (true, w)
      else (false, w.(owner := false, claimLost := true))
    else (StatusOf(jobs, w) != Some(Running), w)
  }

  function VersionOf(jobs: map<JobId, Job>, j: Option<JobId>): nat {
    if j.Some? && j.value in jobs then jobs[j.value].version else 0
  }

  function Record(s: System, actor: Actor, job: Option<JobId>, token: Option<nat>, kind: Kind): System {
    s.(log := s.log + [Event(actor, job, VersionOf(s.jobs, job), token, kind)])
  }

  function SetWorker(s: System, id: WorkerId, w: Worker): System {
    s.(workers := s.workers[id := w])
  }

  /** A plan-row write that is not an enqueue, with the release and adoption counters kept. */
  function SetPlan(s: System, plan: Plan): System {
    s.(plan := plan,
       released := s.released + if s.plan.activeJob.Some? && plan.activeJob.None? then 1 else 0,
       adopted := s.adopted + if s.plan.activeJob.None? && plan.activeJob.Some? then 1 else 0)
  }

  function Released(plan: Plan, execution: ExecutionStatus): Plan {
    plan.(activeJob := None, execution := execution)
  }

  /** Guard, plan-row write and commit: one transaction, since the fence holds the job's row lock. */
  function GuardedWrite(s: System, id: WorkerId, requireRunning: bool, plan: Plan, kind: Kind): System
    requires id in s.workers
  {
    var w := s.workers[id];
    var (ok, w') := Guard(s.jobs, w, requireRunning);
    var s' := SetWorker(s, id, w');
    if !ok || w.phase != Working then s'
    else Record(SetPlan(s', plan), ByWorker(id), w.job, w.token, kind)
  }

  function ClaimStep(s: System, id: WorkerId, now: Instant, staleBefore: Instant): System
    requires id in s.workers
  {
    var w := s.workers[id];
    if w.phase != Fresh then s
    else if w.job.None? then SetWorker(s, id, w.(owner := true, phase := Working))
    else if w.job.value in s.jobs && Claimable(s.jobs[w.job.value], staleBefore) then
      var job := ClaimedJob(s.jobs[w.job.value], now);
      var s' := SetWorker(s.(jobs := s.jobs[w.job.value := job]), id,
                          w.(owner := true, phase := AwaitingToken, won := Some(job.version)));
      Record(s', ByWorker(id), w.job, None, Claimed(now))
    else SetWorker(s, id, w.(owner := false, phase := Skipped))
  }

  function TokenStep(s: System, id: WorkerId): System
    requires id in s.workers
  {
    var w := s.workers[id];
    if w.phase == AwaitingToken && w.job.Some? && w.job.value in s.jobs then
      SetWorker(s, id, w.(token := Some(s.jobs[w.job.value].version), phase := Working))
    else s
  }

  function HeartbeatStep(s: System, id: WorkerId, now: Instant): System
    requires id in s.workers
  {
    var w := s.workers[id];
    if w.job.Some? && w.job.value in s.jobs && w.token.Some?
       && Holds(s.jobs[w.job.value], w.token, true) then
      var job := s.jobs[w.job.value].(heartbeatAt := Some(now));
      Record(s.(jobs := s.jobs[w.job.value := job]), ByWorker(id), w.job, w.token, Beat(now))
    else s
  }

  function FinishedJob(job: Job, outcome: Outcome, now: Instant): Job {
    match outcome
    case Success => job.(status := Succeeded, completedAt := Some(now))
    case Cancelling => job.(status := Cancelled, completedAt := Some(now))
    case Failing(f) => job.(status := Failed, completedAt := Some(now), failure := Some(f))
  }

  function FinishStep(s: System, id: WorkerId, outcome: Outcome, now: Instant): System
    requires id in s.workers
  {
    var w := s.workers[id];
    if w.phase != Working || w.job.None? || !w.owner then s
    else if w.job.value in s.jobs && Holds(s.jobs[w.job.value], w.token, true) then
      var job := FinishedJob(s.jobs[w.job.value], outcome, now);
      Record(s.(jobs := s.jobs[w.job.value := job]), ByWorker(id), w.job, w.token, Finished(outcome, now))
    else SetWorker(s, id, w.(owner := false, claimLost := true))
  }

  function PersistedPlan(plan: Plan, payload: Payload, inPlace: bool): Plan {
    if inPlace then
      Plan(None, if payload.failed then ExecutionFailed else Complete, true, Some(payload))
    else plan.(isCurrent := false)
  }

  function FailUnclaimedStep(s: System, id: WorkerId, failure: Failure, now: Instant): System
    requires id in s.workers
  {
    var w := s.workers[id];
    if w.job.Some? && w.job.value in s.jobs && w.token.None?
       && (w.phase == Fresh || w.phase == AwaitingToken) && s.jobs[w.job.value].status == Queued then
      var job := FinishedJob(s.jobs[w.job.value], Failing(failure), now);
      var s' := SetPlan(s.(jobs := s.jobs[w.job.value := job]), Released(s.plan, ExecutionFailed));
      Record(s', ByWorker(id), w.job, None, UnclaimedFailed(failure, now))
    else s
  }

  function UnfencedCancelStep(s: System, id: WorkerId): System
    requires id in s.workers
  {
    var w := s.workers[id];
    if w.phase == Fresh && w.job.Some? && w.job.value in s.jobs then
      Record(SetPlan(s, Released(s.plan, ExecutionCancelled)), ByWorker(id), w.job, None, UnfencedWritten)
    else s
  }

  /** `record_failure` taking ownership back; its two reads before this may be out of date. */
  function ReownStep(s: System, id: WorkerId): System
    requires id in s.workers
  {
    var w := s.workers[id];
    if w.phase == Working && w.token.Some? then SetWorker(s, id, w.(owner := true)) else s
  }

  /** The plan-row writes made under the claim guard. */
  predicate IsGuarded(a: Action) {
    a.WriteAnalyzing? || a.Persist? || a.WriteFailed? || a.WriteCancelled? || a.Reconcile?
  }

  /** Which of the guarded plan-row writes an action is. */
  function KindOf(a: Action): Kind {
    match a
    case WriteAnalyzing(_) => AnalyzingWritten
    case Persist(_, payload, inPlace) => ResultWritten(payload, inPlace)
    case WriteFailed(_) => FailureWritten
    case WriteCancelled(_) => CancellationWritten
    case _ => Reconciled
  }

  /** The plan row as a guarded write of worker `w` leaves it. */
  function PlanAfter(s: System, w: Worker, a: Action): Plan {
    match a
    case WriteAnalyzing(_) => s.plan.(activeJob := w.job, execution := Analyzing)
    case Persist(_, payload, inPlace) => PersistedPlan(s.plan, payload, inPlace)
    case WriteFailed(_) =>
      Released(s.plan, if StatusOf(s.jobs, w) == Some(Cancelled) then ExecutionCancelled else ExecutionFailed)
    case _ => Released(s.plan, ExecutionCancelled)
  }

  function WorkerStep(s: System, a: Action): System
    requires ActorOf(a).ByWorker? && a.worker in s.workers
  {
    var w := s.workers[a.worker];
    if IsGuarded(a) then GuardedWrite(s, a.worker, !a.Reconcile?, PlanAfter(s, w, a), KindOf(a))
    else
      match a
      case ClaimUpdate(id, now, staleBefore) => ClaimStep(s, id, now, staleBefore)
      case TokenRead(id) => TokenStep(s, id)
      case Heartbeat(id, now) => HeartbeatStep(s, id, now)
      case CheckCurrent(id) => SetWorker(s, id, Current(s.jobs, w).1)
      case UnfencedCancel(id) => UnfencedCancelStep(s, id)
      case Finish(id, outcome, now) => FinishStep(s, id, outcome, now)
      case Reown(id) => ReownStep(s, id)
      case FailUnclaimed(id, failure, now) => FailUnclaimedStep(s, id, failure, now)
  }

  // ---- operators and queue callers ----------------------------------------------

  const NewJob := Job(Queued, 0, None, None, None, None, 0)

  predicate Active(job: Job) {
    job.status == Queued || job.status == Running
  }

  predicate Cleared(s: System, c: CallerId) {
    c in s.callers && s.callers[c]
  }

  /** `_active_job`: the caller goes on only when no QUEUED or RUNNING job was seen. */
  function ReadActiveStep(s: System, c: CallerId): System {
    s.(callers := s.callers[c := forall j <- s.jobs :: !Active(s.jobs[j])])
  }

  /** Job insertion and compare-and-swap on `active_job_id`, committed or rolled back together. */
  function EnqueueStep(s: System, c: CallerId, j: JobId): System {
    if !Cleared(s, c) then s
    else
      var s' := s.(callers := s.callers[c := false]);
      if j in s.jobs || s.plan.activeJob.Some? then s'
      else
        var s'' := s'.(jobs := s.jobs[j := NewJob], plan := s.plan.(activeJob := Some(j)),
                       enqueued := s.enqueued + 1);
        Record(s'', ByCaller(c), Some(j), None, Enqueued)
  }

  /** `_clear_stale_claim`: `stale` is whatever the caller last read from the row. */
  function ClearStaleStep(s: System, c: CallerId, stale: JobId): System {
    if !Cleared(s, c) then s
    else
      var s' := s.(callers := s.callers[c := false]);
      if s.plan.activeJob != Some(stale) then s'
      else Record(SetPlan(s', s.plan.(activeJob := None)), ByCaller(c), None, None, StaleCleared(stale))
  }

  function CancelStep(s: System, j: JobId): System {
    if j !in s.jobs then s
    else Record(s.(jobs := s.jobs[j := s.jobs[j].(status := Cancelled)]),
                ByOperator, Some(j), None, OperatorCancelled)
  }

  function RetryStep(s: System, j: JobId): System {
    if j !in s.jobs then s
    else
      var job := s.jobs[j].(status := Queued, retries := s.jobs[j].retries + 1, failure := None);
      Record(s.(jobs := s.jobs[j := job]), ByOperator, Some(j), None, OperatorRetried)
  }

  function Next(s: System, a: Action): System {
    match a
    case OperatorCancel(j) => CancelStep(s, j)
    case OperatorRetry(j) => RetryStep(s, j)
    case ReadActive(c) => ReadActiveStep(s, c)
    case Enqueue(c, j) => EnqueueStep(s, c, j)
    case ClearStale(c, stale) => ClearStaleStep(s, c, stale)
    case _ => if a.worker in s.workers then WorkerStep(s, a) else s
  }

  function Run(s: System, actions: seq<Action>): System {
    if actions == [] then s
    else Next(Run(s, actions[..|actions| - 1]), actions[|actions| - 1])
  }

  /** Rows as the database may hold them before any of these workers starts. */
  ghost predicate Initial(s: System) {
    && (forall id <- s.workers :: var w := s.workers[id];
          w.phase == Fresh && !w.owner && w.token.None? && !w.claimLost && w.won.None?)
    && s.callers == map[] && s.log == [] && s.enqueued == s.adopted == s.released == 0
  }
}
