/**
 The visual-composition executor and its heartbeat as objects over a shared database.

 Between any two statements other sessions may commit: `Interleave` stands for whatever run of
 their steps happened.  Every method leaves the database in a state of the job protocol reached
 by the recorded run, so the protocol's theorems speak about everything these methods do.
 */
module JobExecutor {
  import opened Wrappers
  import opened JobFrames
  import opened JobLedger
  import opened JobProtocol
  import opened JobSafety
  import opened JobTheorems

  class Database {
    var jobs: map<JobId, Job>
    var plan: Plan
    ghost const initial: System
    ghost var run: seq<Action>
    ghost var model: System

    /** The rows are those of the protocol state that the recorded run reaches. */
    ghost predicate Valid() reads this {
      Initial(initial) && model == Run(initial, run) && model.jobs == jobs && model.plan == plan
    }

    constructor (ghost start: System, jobs: map<JobId, Job>, plan: Plan)
      requires Initial(start) && start.jobs == jobs && start.plan == plan
      ensures Valid() && model == start && run == []
    {
      this.jobs, this.plan, this.initial, this.run, this.model := jobs, plan, start, [], start;
    }

    /** The end of one transaction: its row changes are those of one protocol step. */
    ghost method Commit(a: Action)
      requires Initial(initial) && model == Run(initial, run)
      requires Next(model, a).jobs == jobs && Next(model, a).plan == plan
      modifies `run, `model
      ensures Valid() && run == old(run) + [a] && model == Next(old(model), a)
    {
      hide Next, Initial;
      RunSnoc(initial, run, a);
      run := run + [a];
      model := Next(model, a);
    }

    /** Any steps of the other parties, and of the worker's own heartbeat thread. */
    method Interleave(ghost me: Actor)
      requires Valid()
      modifies this
      ensures Valid() && old(run) <= run
      ensures forall i | |old(run)| <= i < |run| :: ActorOf(run[i]) != me || run[i].Heartbeat?
    {
    }
  }

  lemma {:induction false} OthersKeepMemory(s: System, before: seq<Action>, after: seq<Action>, id: WorkerId)
    requires before <= after && id in Run(s, before).workers
    requires forall i | |before| <= i < |after| :: ActorOf(after[i]) != ByWorker(id) || after[i].Heartbeat?
    ensures id in Run(s, after).workers && Run(s, after).workers[id] == Run(s, before).workers[id]
  {
    if before != after {
      var front, a := after[..|after| - 1], after[|after| - 1];
      OthersKeepMemory(s, before, front, id);
      StepKeepsOthers(Run(s, front), a, id);
    }
  }

  lemma StepKeepsOthers(s: System, a: Action, id: WorkerId)
    requires id in s.workers && (ActorOf(a) != ByWorker(id) || a.Heartbeat?)
    ensures id in Next(s, a).workers && Next(s, a).workers[id] == s.workers[id]
  {
    hide Next;
    OthersFrame(s, a, id);
  }

  /** `after` continues `before`. */
  lemma {:induction false} JobsPersist(s: System, before: seq<Action>, after: seq<Action>)
    requires Inv(s) && before <= after
    ensures LegalJobs(Run(s, before).jobs, Run(s, after).jobs)
  {
    if before != after {
      var front := after[..|after| - 1];
      JobsPersist(s, before, front);
      RunKeeps(s, front);
      StepKeeps(Run(s, front), after[|after| - 1]);
      forall j | j in Run(s, before).jobs ensures LegalJob(Run(s, before).jobs[j], Run(s, after).jobs[j]) {
        assert LegalJob(Run(s, before).jobs[j], Run(s, front).jobs[j]);
        assert LegalJob(Run(s, front).jobs[j], Run(s, after).jobs[j]);
      }
    }
  }

  datatype Inputs = InputsRaised(failure: Failure) | InputsMissing | InputsReady
  datatype Planned = PlannerCancelled | PlannerRaised(failure: Failure) | PlannerReturned(payload: Payload, inPlace: bool)
  datatype Execution =
    | RaisedCancelled | Raised(failure: Failure) | SkippedDuplicate | CacheHit | Superseded | Finalized(payload: Payload)

  const Disabled := Failure("COMPOSITION_INPUT", "Stage 5.1 visual composition is disabled")
  const NoContract := Failure("COMPOSITION_INPUT",
                              "candidate has no current live-effective executable Stage 5.0 contract")
  const FailedPlan := Failure("CompositionError", "CompositionError")

  class Executor {
    const db: Database
    const activeJobId: Option<JobId>
    var jobOwner: bool
    var claimVersion: Option<nat>
    var claimLost: bool
    ghost const id: WorkerId
    ghost var phase: Phase
    ghost var won: Option<nat>

    ghost function Memory(): Worker reads this {
      Worker(activeJobId, phase, jobOwner, claimVersion, claimLost, won)
    }

    /** The fields are the memory the protocol state has for this worker. */
    ghost predicate Valid() reads this, db {
      db.Valid() && id in db.model.workers && db.model.workers[id] == Memory()
    }

    constructor (db: Database, activeJobId: Option<JobId>, ghost id: WorkerId)
      requires db.Valid() && id in db.model.workers
      requires db.model.workers[id] == Worker(activeJobId, Fresh, false, None, false, None)
      ensures Valid() && this.db == db && this.id == id && this.activeJobId == activeJobId && phase == Fresh
    {
      this.db, this.activeJobId, this.id := db, activeJobId, id;
      jobOwner, claimVersion, claimLost, phase, won := false, None, false, Fresh, None;
    }

    method Interleave()
      requires Valid()
      modifies db
      ensures Valid() && old(db.run) <= db.run && LegalJobs(old(db.jobs), db.jobs)
      ensures OthersOnly(old(db.run))
    {
      db.Interleave(ByWorker(id));
      OthersKeepMemory(db.initial, old(db.run), db.run, id);
      JobsPersist(db.initial, old(db.run), db.run);
    }

    // -- job claim / ownership -------------------------------------------------

    method JobStatusNow() returns (status: Option<JobStatus>)
      ensures status == StatusOf(db.jobs, Memory())
    {
      if activeJobId.None? || activeJobId.value !in db.jobs {
        return None;
      }
      return Some(db.jobs[activeJobId.value].status);
    }

    method FenceClaim(requireRunning: bool) returns (ok: bool)
      modifies `jobOwner, `claimLost
      ensures (ok, Memory()) == Fence(db.jobs, old(Memory()), requireRunning)
    {
      if activeJobId.None? {
        return true;
      }
      if !jobOwner || claimVersion.None? {
        claimLost := true;
        return false;
      }
      var stored := if activeJobId.value in db.jobs then Some(db.jobs[activeJobId.value].version) else None;
      var matched := stored == claimVersion
                     && (!requireRunning || db.jobs[activeJobId.value].status == Running);
      if matched {
        return true;
      }
      if stored != claimVersion {
        jobOwner := false;
        claimLost := true;
      }
      return false;
    }

    method ClaimGuard(requireRunning: bool) returns (ok: bool)
      modifies `jobOwner, `claimLost
      ensures (ok, Memory()) == Guard(db.jobs, old(Memory()), requireRunning)
    {
      if claimLost {
        return false;
      }
      if activeJobId.None? {
        return true;
      }
      if jobOwner && claimVersion.Some? {
        ok := FenceClaim(requireRunning);
        return ok;
      }
      var status := JobStatusNow();
      return status != Some(Running);
    }

    method ClaimIsCurrent() returns (ok: bool)
      requires Valid()
      modifies `jobOwner, `claimLost, db`run, db`model
      ensures Valid() && db.run == old(db.run) + [CheckCurrent(id)]
      ensures ok == Current(db.jobs, old(Memory())).0 && phase == old(phase)
    {
      ok := true;
      if claimLost {
        ok := false;
      } else if activeJobId.Some? {
        if jobOwner && claimVersion.Some? {
          var stored := if activeJobId.value in db.jobs then Some(db.jobs[activeJobId.value].version) else None;
          if stored != claimVersion {
            jobOwner := false;
            claimLost := true;
            ok := false;
          }
        } else {
          var status := JobStatusNow();
          ok := status != Some(Running);
        }
      }
      db.Commit(CheckCurrent(id));
    }

    /**
     The claim succeeds exactly when the row was claimable at the UPDATE; the token is whatever
     version the later SELECT finds, which is the worker's own unless another claim fell between.
     */
    /** Without a job there is nothing to lose; a job is taken by its status, when RUNNING by its last sign of life. */
    ghost predicate TakenFrom(jobs: map<JobId, Job>, staleBefore: Instant) {
      if activeJobId.None? then true
      else if activeJobId.value !in jobs then false
      else
        var job := jobs[activeJobId.value];
        match job.status
        case Queued => true
        case Failed => true
        case Running =>
          (job.heartbeatAt.Some? && job.heartbeatAt.value < staleBefore)
          || (job.heartbeatAt.None? && job.startedAt.Some? && job.startedAt.value < staleBefore)
        case _ => false
    }

    /** An event of this worker's job, as far as its row is concerned. */
    ghost function Written(kind: Kind): Event { Event(ByWorker(id), activeJobId, 0, None, kind) }

    method ClaimJob(now: Instant, staleSeconds: nat) returns (claimed: bool)
      requires Valid() && phase == Fresh
      modifies this, db
      ensures Valid() && old(db.run) + [ClaimUpdate(id, now, now - staleSeconds)] <= db.run
      ensures claimed == TakenFrom(old(db.jobs), now - staleSeconds)
      ensures claimed == jobOwner && phase == (if claimed then Working else Skipped)
      ensures claimed && activeJobId.Some? ==>
                && won == Some(old(db.jobs)[activeJobId.value].version + 1)
                && activeJobId.value in db.jobs && claimVersion == Some(db.jobs[activeJobId.value].version)
    {
      claimed := UpdateClaim(now, staleSeconds);
      if claimed && activeJobId.Some? {
        ReadToken();
      }
    }

    /** The claim UPDATE and its commit. */
    method UpdateClaim(now: Instant, staleSeconds: nat) returns (claimed: bool)
      requires Valid() && phase == Fresh
      modifies this, db
      ensures Valid() && db.run == old(db.run) + [ClaimUpdate(id, now, now - staleSeconds)]
      ensures claimed == TakenFrom(old(db.jobs), now - staleSeconds)
      ensures claimed == jobOwner
      ensures phase == if !claimed then Skipped else if activeJobId.Some? then AwaitingToken else Working
      ensures claimed && activeJobId.Some? ==>
                && won == Some(old(db.jobs)[activeJobId.value].version + 1)
                && db.jobs == old(db.jobs)[activeJobId.value := db.jobs[activeJobId.value]]
                && Writes(Written(Claimed(now)), old(db.jobs)[activeJobId.value], db.jobs[activeJobId.value])
      ensures !claimed || activeJobId.None? ==> db.jobs == old(db.jobs)
    {
      hide Initial, Run;
      ProtocolInv();
      assert WorkerSound(db.model.workers[id], db.jobs);
      claimed := true;
      phase := Working;
      if activeJobId.Some? {
        var j := activeJobId.value;
        claimed := j in db.jobs && Claimable(db.jobs[j], now - staleSeconds);
        phase := Skipped;
        if claimed {
          db.jobs := db.jobs[j := ClaimedJob(db.jobs[j], now)];
          won, phase := Some(db.jobs[j].version), AwaitingToken;
        }
      }
      jobOwner := claimed;
      db.Commit(ClaimUpdate(id, now, now - staleSeconds));
    }

    /** The separate SELECT of the token, after whatever happened since the claim committed. */
    method ReadToken()
      requires Valid() && phase == AwaitingToken && activeJobId.Some? && activeJobId.value in db.jobs
      modifies `claimVersion, `phase, db
      ensures Valid() && old(db.run) <= db.run && phase == Working
      ensures activeJobId.value in db.jobs && claimVersion == Some(db.jobs[activeJobId.value].version)
    {
      Interleave();
      claimVersion, phase := Some(db.jobs[activeJobId.value].version), Working;
      db.Commit(TokenRead(id));
    }

    lemma ProtocolInv()
      requires Initial(db.initial) && db.model == Run(db.initial, db.run)
      ensures Inv(db.model)
    {
      RunKeeps(db.initial, db.run);
    }

    /** The job is this worker's, under its token, and RUNNING. */
    ghost predicate MayFinish() reads this, db {
      && activeJobId.Some? && jobOwner && activeJobId.value in db.jobs
      && Some(db.jobs[activeJobId.value].version) == claimVersion && db.jobs[activeJobId.value].status == Running
    }

    /** `_finish_job`: the conditional UPDATE either matches and commits, or the claim is lost. */
    method FinishJob(outcome: Outcome, now: Instant)
      requires Valid() && phase == Working
      modifies `jobOwner, `claimLost, db
      ensures Valid() && db.run == old(db.run) + [Finish(id, outcome, now)] && db.plan == old(db.plan)
      ensures LegalJobs(old(db.jobs), db.jobs)
      ensures old(MayFinish()) ==>
                && db.jobs == old(db.jobs)[activeJobId.value := db.jobs[activeJobId.value]]
                && Writes(Written(Finished(outcome, now)), old(db.jobs)[activeJobId.value], db.jobs[activeJobId.value])
      ensures !old(MayFinish()) ==> db.jobs == old(db.jobs)
      ensures claimLost == (old(claimLost) || (activeJobId.Some? && old(jobOwner) && !old(MayFinish())))
    {
      hide Initial, Run, Inv, LegalJobs;
      ProtocolInv();
      StepKeeps(db.model, Finish(id, outcome, now));
      if activeJobId.None? || !jobOwner {
        db.Commit(Finish(id, outcome, now));
        return;
      }
      var j := activeJobId.value;
      if j in db.jobs && Some(db.jobs[j].version) == claimVersion && db.jobs[j].status == Running {
        db.jobs := db.jobs[j := FinishedJob(db.jobs[j], outcome, now)];
      } else {
        jobOwner := false;
        claimLost := true;
      }
      db.Commit(Finish(id, outcome, now));
    }

    // -- row lifecycle ---------------------------------------------------------

    /** Before any claim the row is written without a token. */
    ghost predicate MayWrite() reads this, db {
      (phase == Working || phase == Fresh)
      && (phase == Fresh ==> activeJobId.Some? && activeJobId.value in db.jobs)
    }

    /** Writes the row exactly when the guard, asking for no RUNNING status, lets it. */
    method ReconcileCancelled()
      requires Valid() && MayWrite()
      modifies `jobOwner, `claimLost, db
      ensures Valid() && old(db.run) < db.run && db.jobs == old(db.jobs) && EndsReconciled()
      ensures db.plan == if Guard(old(db.jobs), old(Memory()), false).0
                         then Released(old(db.plan), ExecutionCancelled) else old(db.plan)
    {
      ProtocolInv();
      var ok := ClaimGuard(false);
      if ok {
        db.plan := Released(db.plan, ExecutionCancelled);
      }
      db.Commit(if phase == Fresh && ok then UnfencedCancel(id) else Reconcile(id));
    }

    /** The status some state of the run since `before` had for this worker's job. */
    ghost predicate WasStatus(before: seq<Action>, seen: Option<JobStatus>) reads this, db {
      exists n | |before| <= n <= |db.run| :: seen == StatusOf(Run(db.initial, db.run[..n]).jobs, Memory())
    }

    /** Since `before` only other sessions, and this worker's heartbeat, have acted. */
    ghost predicate OthersOnly(before: seq<Action>) reads this, db {
      && before <= db.run
      && forall i | |before| <= i < |db.run| :: ActorOf(db.run[i]) != ByWorker(id) || db.run[i].Heartbeat?
    }

    /** A refused write ends in a reconciliation exactly when the claim stands and the job was seen cancelled. */
    ghost predicate Refused(before: seq<Action>, lost: bool, seen: Option<JobStatus>) reads this, db {
      && WasStatus(before, seen)
      && if lost || seen != Some(Cancelled) then OthersOnly(before)
         else before < db.run && EndsReconciled()
    }

    ghost predicate EndsReconciled() reads this, db {
      db.run != [] && (db.run[|db.run| - 1] == Reconcile(id) || db.run[|db.run| - 1] == UnfencedCancel(id))
    }

    /** What follows a refused plan-row write. */
    method ReconcileIfCancelled() returns (ghost seen: Option<JobStatus>)
      requires Valid() && MayWrite()
      modifies `jobOwner, `claimLost, db
      ensures Valid() && old(db.run) <= db.run && LegalJobs(old(db.jobs), db.jobs)
      ensures Refused(old(db.run), old(claimLost), seen)
    {
      Interleave();
      var status := JobStatusNow();
      seen := status;
      ghost var read := db.run;
      assert db.run[..|read|] == read;
      if !claimLost && status == Some(Cancelled) {
        ReconcileLater();
        assert db.run[..|read|] == read;
      }
    }

    method MarkCancelled() returns (ghost seen: Option<JobStatus>)
      requires Valid() && MayWrite()
      modifies `jobOwner, `claimLost, db
      ensures Valid() && LegalJobs(old(db.jobs), db.jobs)
      ensures old(db.run) + [CancelWrite(old(phase), old(db.jobs), old(Memory()))] <= db.run
      ensures var (ok, w) := Guard(old(db.jobs), old(Memory()), true);
        if ok then db.jobs == old(db.jobs) && db.plan == Released(old(db.plan), ExecutionCancelled)
        else Refused(old(db.run) + [WriteCancelled(id)], w.claimLost, seen)
    {
      hide Initial, Run, LogSound, Fence;
      ProtocolInv();
      var ok := ClaimGuard(true);
      seen := None;
      if ok {
        db.plan := Released(db.plan, ExecutionCancelled);
        db.Commit(if phase == Fresh then UnfencedCancel(id) else WriteCancelled(id));
        return;
      }
      db.Commit(WriteCancelled(id));
      seen := ReconcileIfCancelled();
    }

    /** Before any claim the cancelled write carries no token. */
    ghost function CancelWrite(phase: Phase, jobs: map<JobId, Job>, w: Worker): Action {
      if phase == Fresh && Guard(jobs, w, true).0 then UnfencedCancel(id) else WriteCancelled(id)
    }

    /** The reconciliation after a status read that other sessions may have outdated. */
    method ReconcileLater()
      requires Valid() && MayWrite()
      modifies `jobOwner, `claimLost, db
      ensures Valid() && old(db.run) < db.run && LegalJobs(old(db.jobs), db.jobs) && EndsReconciled()
    {
      Interleave();
      ReconcileCancelled();
    }

    method MarkFailed() returns (ghost seen: Option<JobStatus>)
      requires Valid() && phase == Working
      modifies `jobOwner, `claimLost, db
      ensures Valid() && old(db.run) + [WriteFailed(id)] <= db.run && LegalJobs(old(db.jobs), db.jobs)
      ensures var (ok, w) := Guard(old(db.jobs), old(Memory()), true);
        if ok then db.jobs == old(db.jobs) && db.plan == Released(old(db.plan), ExecutionFailed)
        else Refused(old(db.run) + [WriteFailed(id)], w.claimLost, seen)
    {
      ProtocolInv();
      var ok := ClaimGuard(true);
      seen := None;
      if !ok {
        db.Commit(WriteFailed(id));
        seen := ReconcileIfCancelled();
        return;
      }
      var status := JobStatusNow();
      db.plan := Released(db.plan, if status == Some(Cancelled) then ExecutionCancelled else ExecutionFailed);
      db.Commit(WriteFailed(id));
    }

    method ClaimRow() returns (ok: bool)
      requires Valid() && phase == Working
      modifies `jobOwner, `claimLost, db
      ensures Valid() && db.run == old(db.run) + [WriteAnalyzing(id)] && db.jobs == old(db.jobs)
      ensures ok == Guard(old(db.jobs), old(Memory()), true).0
      ensures db.plan == if ok then old(db.plan).(activeJob := activeJobId, execution := Analyzing) else old(db.plan)
    {
      ok := ClaimGuard(true);
      if ok {
        db.plan := db.plan.(activeJob := activeJobId, execution := Analyzing);
      }
      db.Commit(WriteAnalyzing(id));
    }

    /** The planner's result, persisted in the transaction of its guard, or refused. */
    method PersistUnderGuard(payload: Payload, inPlace: bool) returns (ok: bool)
      requires Valid() && phase == Working
      modifies `jobOwner, `claimLost, db
      ensures Valid() && db.run == old(db.run) + [Persist(id, payload, inPlace)] && db.jobs == old(db.jobs)
      ensures ok == Guard(old(db.jobs), old(Memory()), true).0
      ensures db.plan == if ok then PersistedPlan(old(db.plan), payload, inPlace) else old(db.plan)
    {
      ok := ClaimGuard(true);
      if ok {
        db.plan := PersistedPlan(db.plan, payload, inPlace);
      }
      db.Commit(Persist(id, payload, inPlace));
    }

    // -- execution -------------------------------------------------------------

    /** A failed write, then a failed finish, whatever others do between. */
    method Fail(failure: Failure, now: Instant)
      requires Valid() && phase == Working
      modifies `jobOwner, `claimLost, db
      ensures Valid() && old(db.run) < db.run
      ensures WriteFailed(id) in db.run && Finish(id, Failing(failure), now) in db.run
    {
      ghost var seen := MarkFailed();
      assert db.run[|old(db.run)|] == WriteFailed(id);
      Interleave();
      FinishJob(Failing(failure), now);
      assert db.run[|old(db.run)|] == WriteFailed(id) && db.run[|db.run| - 1] in db.run;
    }

    /** A cancelled write, then a cancelled finish, whatever others do between. */
    method Cancel(now: Instant)
      requires Valid() && phase == Working
      modifies `jobOwner, `claimLost, db
      ensures Valid() && old(db.run) < db.run
      ensures WriteCancelled(id) in db.run && Finish(id, Cancelling, now) in db.run
    {
      hide Next, Inv;
      ghost var seen := MarkCancelled();
      assert db.run[|old(db.run)|] == WriteCancelled(id);
      Interleave();
      FinishJob(Cancelling, now);
      assert db.run[|old(db.run)|] == WriteCancelled(id) && db.run[|db.run| - 1] in db.run;
    }

    /** `_should_stop`. */
    method ShouldStop() returns (stop: bool)
      requires Valid() && phase == Working
      modifies `jobOwner, `claimLost, db
      ensures Valid() && old(db.run) <= db.run && LegalJobs(old(db.jobs), db.jobs)
      ensures if StatusOf(old(db.jobs), old(Memory())) == Some(Cancelled) then stop && db.run == old(db.run)
              else stop == !Current(db.jobs, old(Memory())).0 && db.run != [] && db.run[|db.run| - 1] == CheckCurrent(id)
    {
      var status := JobStatusNow();
      if status == Some(Cancelled) {
        return true;
      }
      Interleave();
      var current := ClaimIsCurrent();
      return !current;
    }

    /** The plan-row write and the matching job-row finish that each outcome was reached by. */
    ghost predicate Concludes(r: Execution, planned: Planned, later: Instant) reads this, db {
      match r
      case Finalized(payload) =>
        && planned.PlannerReturned? && payload == planned.payload
        && Persist(id, payload, planned.inPlace) in db.run
        && Finish(id, if payload.failed then Failing(FailedPlan) else Success, later) in db.run
      case Raised(failure) => WriteFailed(id) in db.run && Finish(id, Failing(failure), later) in db.run
      case RaisedCancelled =>
        if phase == Fresh then UnfencedCancel(id) in db.run || WriteCancelled(id) in db.run
        else WriteCancelled(id) in db.run && Finish(id, Cancelling, later) in db.run
      case CacheHit => Finish(id, Success, later) in db.run
      case Superseded => CheckCurrent(id) in db.run
      case SkippedDuplicate => phase == Skipped
    }

    /** The outcome of a claimed job, as far as the answers it met decide it. */
    predicate Answers(r: Execution, enabled: bool, inputs: Inputs, cached: bool, planned: Planned) {
      if !enabled then r == Raised(Disabled)
      else if inputs.InputsRaised? then r == Raised(inputs.failure)
      else if inputs.InputsMissing? then r == Raised(NoContract)
      else if cached then r == CacheHit
      else r.Superseded? || PlannerAnswers(r, planned)
    }

    predicate PlannerAnswers(r: Execution, planned: Planned) {
      match planned
      case PlannerRaised(failure) => r == Raised(failure)
      case PlannerCancelled => r.RaisedCancelled?
      case PlannerReturned(payload, _) => r.RaisedCancelled? || r.Superseded? || r == Finalized(payload)
    }

    /** `execute`, with the answers of the settings, input resolution, cache and planner as arguments. */
    method Execute(now: Instant, later: Instant, staleSeconds: nat, enabled: bool, inputs: Inputs,
                   cached: bool, planned: Planned)
      returns (r: Execution)
      requires Valid() && phase == Fresh
      modifies this, db
      ensures Valid()
      ensures match phase
              case Fresh => r.RaisedCancelled?
              case Skipped => r.SkippedDuplicate?
              case _ => Answers(r, enabled, inputs, cached, planned)
      ensures Concludes(r, planned, later)
    {
      var status := JobStatusNow();
      Interleave();
      if status == Some(Cancelled) {
        ghost var before := db.run;
        ghost var seen := MarkCancelled();
        assert db.run[|before|] in db.run;
        return RaisedCancelled;
      }
      var claimed := ClaimJob(now, staleSeconds);
      if !claimed {
        return SkippedDuplicate;
      }
      r := ExecuteClaimed(later, enabled, inputs, cached, planned);
    }

    method ExecuteClaimed(later: Instant, enabled: bool, inputs: Inputs, cached: bool, planned: Planned)
      returns (r: Execution)
      requires Valid() && phase == Working
      modifies `jobOwner, `claimLost, db
      ensures Valid() && Answers(r, enabled, inputs, cached, planned)
      ensures Concludes(r, planned, later)
    {
      Interleave();
      if !enabled {
        Fail(Disabled, later);
        return Raised(Disabled);
      }
      if inputs.InputsRaised? {
        Fail(inputs.failure, later);
        return Raised(inputs.failure);
      }
      if inputs.InputsMissing? {
        Fail(NoContract, later);
        return Raised(NoContract);
      }
      if cached {
        FinishJob(Success, later);
        assert db.run[|db.run| - 1] in db.run;
        return CacheHit;
      }
      var current := ClaimIsCurrent();
      ghost var n := |db.run|;
      assert db.run[n - 1] == CheckCurrent(id);
      if !current {
        return Superseded;
      }
      Interleave();
      var rowClaimed := ClaimRow();
      assert db.run[n - 1] == CheckCurrent(id);
      if !rowClaimed {
        return Superseded;
      }
      Interleave();
      assert db.run[n - 1] == CheckCurrent(id);
      r := RunPlanner(later, planned);
    }

    method RunPlanner(later: Instant, planned: Planned) returns (r: Execution)
      requires Valid() && phase == Working && CheckCurrent(id) in db.run
      modifies `jobOwner, `claimLost, db
      ensures Valid() && PlannerAnswers(r, planned)
      ensures Concludes(r, planned, later)
    {
      ghost var n :| 0 <= n < |db.run| && db.run[n] == CheckCurrent(id);
      if planned.PlannerRaised? {
        Fail(planned.failure, later);
        return Raised(planned.failure);
      }
      var stop := true;
      if planned.PlannerReturned? {
        stop := ShouldStop();
      }
      Interleave();
      if stop {
        Cancel(later);
        return RaisedCancelled;
      }
      var persisted := PersistUnderGuard(planned.payload, planned.inPlace);
      ghost var persistedRun := db.run;
      Interleave();
      if !persisted {
        var status := JobStatusNow();
        if status == Some(Cancelled) {
          Interleave();
          Cancel(later);
          return RaisedCancelled;
        }
        assert db.run[n] == CheckCurrent(id);
        return Superseded;
      }
      FinishJob(if planned.payload.failed then Failing(FailedPlan) else Success, later);
      assert persistedRun[|persistedRun| - 1] in db.run;
      assert db.run[|db.run| - 1] in db.run;
      return Finalized(planned.payload);
    }

    /**
     `record_failure`: the worker entry point's last fenced write.  Without a token it fails a job that is
     still queued; with one it acts only while the stored version is its own.
     */
    method RecordFailure(failure: Failure, now: Instant) returns (ghost seen: Option<JobStatus>)
      requires Valid() && (phase == Working || (phase == Fresh && activeJobId.Some?))
      modifies this, db
      ensures Valid() && old(db.run) <= db.run && phase == old(phase)
      ensures phase == Fresh ==>
                && db.run == old(db.run) + [FailUnclaimed(id, failure, now)]
                && FailsUnclaimed(old(db.jobs), old(db.plan), failure, now)
      ensures phase == Working && activeJobId.None? ==> WriteFailed(id) in db.run
      ensures phase == Working && activeJobId.Some? ==>
                if OwnVersion(old(db.jobs), old(claimVersion)) then Recorded(old(db.run), seen, failure, now)
                else db.run == old(db.run) && db.jobs == old(db.jobs) && db.plan == old(db.plan)
    {
      hide Initial, Run, Inv;
      ProtocolInv();
      assert WorkerSound(db.model.workers[id], db.model.jobs);
      seen := None;
      if activeJobId.None? {
        seen := MarkFailed();
        assert db.run[|old(db.run)|] == WriteFailed(id);
        return;
      }
      if claimVersion.Some? {
        seen := RecordClaimedFailure(failure, now);
        return;
      }
      var j := activeJobId.value;
      if j in db.jobs && db.jobs[j].status == Queued {
        db.jobs := db.jobs[j := FinishedJob(db.jobs[j], Failing(failure), now)];
        db.plan := Released(db.plan, ExecutionFailed);
      }
      db.Commit(FailUnclaimed(id, failure, now));
    }

    /** Exactly a job still queued is failed, and its slot released. */
    ghost predicate FailsUnclaimed(jobs: map<JobId, Job>, plan: Plan, failure: Failure, now: Instant)
      reads this, db
    {
      activeJobId.Some? &&
        var j := activeJobId.value;
        if j in jobs && jobs[j].status == Queued then
          db.jobs == jobs[j := FinishedJob(jobs[j], Failing(failure), now)] && db.plan == Released(plan, ExecutionFailed)
        else db.jobs == jobs && db.plan == plan
    }

    ghost predicate OwnVersion(jobs: map<JobId, Job>, token: Option<nat>) reads this {
      activeJobId.Some? && activeJobId.value in jobs && Some(jobs[activeJobId.value].version) == token
    }

    /** A running job is failed, the row of a cancelled one reconciled, any other left alone. */
    ghost predicate Recorded(before: seq<Action>, seen: Option<JobStatus>, failure: Failure, now: Instant)
      reads this, db
    {
      && before <= db.run && WasStatus(before, seen)
      && (seen == Some(Running) ==>
            Reown(id) in db.run && WriteFailed(id) in db.run && Finish(id, Failing(failure), now) in db.run)
      && (seen == Some(Cancelled) ==> EndsReconciled())
      && (seen != Some(Running) && seen != Some(Cancelled) ==> OthersOnly(before))
    }

    method RecordClaimedFailure(failure: Failure, now: Instant) returns (ghost seen: Option<JobStatus>)
      requires Valid() && phase == Working && activeJobId.Some? && claimVersion.Some?
      modifies `jobOwner, `claimLost, db
      ensures Valid() && old(db.run) <= db.run
      ensures if OwnVersion(old(db.jobs), old(claimVersion)) then Recorded(old(db.run), seen, failure, now)
              else db.run == old(db.run) && db.jobs == old(db.jobs) && db.plan == old(db.plan)
    {
      var j := activeJobId.value;
      seen := None;
      if j !in db.jobs || Some(db.jobs[j].version) != claimVersion {
        return;
      }
      Interleave();
      var status := JobStatusNow();
      seen := status;
      ghost var read := db.run;
      assert db.run[..|read|] == read;
      if status == Some(Running) {
        ReownAndFail(failure, now);
        assert db.run[..|read|] == read;
      } else if status == Some(Cancelled) {
        ReconcileLater();
        assert db.run[..|read|] == read;
      }
    }

    method ReownAndFail(failure: Failure, now: Instant)
      requires Valid() && phase == Working && claimVersion.Some?
      modifies `jobOwner, `claimLost, db
      ensures Valid() && old(db.run) <= db.run
      ensures Reown(id) in db.run && WriteFailed(id) in db.run && Finish(id, Failing(failure), now) in db.run
    {
      jobOwner := true;
      db.Commit(Reown(id));
      ghost var owned := db.run;
      assert owned[|owned| - 1] == Reown(id);
      Interleave();
      Fail(failure, now);
      assert db.run[|owned| - 1] == Reown(id);
    }
  }

  /** The background thread of one claim; it keeps its own copy of the token. */
  class LivenessHeartbeat {
    const db: Database
    const jobId: JobId
    const claimVersion: nat
    ghost const id: WorkerId

    constructor (db: Database, jobId: JobId, claimVersion: nat, ghost id: WorkerId)
      ensures this.db == db && this.jobId == jobId && this.claimVersion == claimVersion && this.id == id
    {
      this.db, this.jobId, this.claimVersion, this.id := db, jobId, claimVersion, id;
    }

    /** Renews the liveness column of exactly the RUNNING claim it was started for. */
    method Renew(now: Instant)
      requires db.Valid() && id in db.model.workers
      requires db.model.workers[id].job == Some(jobId) && db.model.workers[id].token == Some(claimVersion)
      modifies db
      ensures db.Valid() && db.run == old(db.run) + [Heartbeat(id, now)] && db.plan == old(db.plan)
      ensures db.jobs ==
        if jobId in old(db.jobs) && old(db.jobs)[jobId].version == claimVersion && old(db.jobs)[jobId].status == Running
        then old(db.jobs)[jobId := old(db.jobs)[jobId].(heartbeatAt := Some(now))] else old(db.jobs)
    {
      if jobId in db.jobs && db.jobs[jobId].version == claimVersion && db.jobs[jobId].status == Running {
        db.jobs := db.jobs[jobId := db.jobs[jobId].(heartbeatAt := Some(now))];
      }
      db.Commit(Heartbeat(id, now));
    }
  }
}
