/** The guarantees of the job protocol over every run. */
module JobTheorems {
  import opened Wrappers
  import opened JobFrames
  import opened JobProtocol
  import opened JobSafety

  lemma RunSnoc(s: System, actions: seq<Action>, a: Action)
    ensures Run(s, actions + [a]) == Next(Run(s, actions), a)
  {
    assert (actions + [a])[..|actions|] == actions;
  }

  lemma {:induction false} RunConcat(s: System, first: seq<Action>, second: seq<Action>)
    ensures Run(s, first + second) == Run(Run(s, first), second)
  {
    hide Next;
    if second == [] {
      assert first + second == first;
    } else {
      var front, a := second[..|second| - 1], second[|second| - 1];
      RunConcat(s, first, front);
      assert first + second == (first + front) + [a];
      RunSnoc(s, first + front, a);
    }
  }

  lemma RunOfFour(s: System, a: Action, b: Action, c: Action, d: Action)
    ensures Run(s, [a, b, c, d]) == Next(Next(Next(Next(s, a), b), c), d)
  {
    hide Next;
    RunSnoc(s, [], a);
    RunSnoc(s, [a], b);
    RunSnoc(s, [a, b], c);
    RunSnoc(s, [a, b, c], d);
    assert [] + [a] == [a] && [a] + [b] == [a, b] && [a, b] + [c] == [a, b, c] && [a, b, c] + [d] == [a, b, c, d];
  }

  lemma {:induction false} RunKeeps(s: System, actions: seq<Action>)
    requires Inv(s)
    ensures Inv(Run(s, actions)) && LegalJobs(s.jobs, Run(s, actions).jobs)
  {
    if actions != [] {
      var front := actions[..|actions| - 1];
      RunKeeps(s, front);
      StepKeeps(Run(s, front), actions[|actions| - 1]);
      forall j | j in s.jobs ensures LegalJob(s.jobs[j], Run(s, actions).jobs[j]) {
        assert LegalJob(s.jobs[j], Run(s, front).jobs[j]);
        assert LegalJob(Run(s, front).jobs[j], Run(s, actions).jobs[j]);
      }
    }
  }

  // ---- fencing ------------------------------------------------------------------

  /**
   In the durable history of any run: a write that carries a token carries the stored
   version; writes of one job come in nondecreasing version order; each claim has a fresh version.
   */
  lemma FencedHistory(s: System, actions: seq<Action>)
    requires Initial(s)
    ensures var log := Run(s, actions).log;
      && (forall e <- log | e.job.Some? && e.token.Some? :: e.token.value == e.version)
      && (forall i, k | 0 <= i < k < |log| && log[i].job.Some? && log[i].job == log[k].job ::
            && log[i].version <= log[k].version
            && (log[k].kind.Claimed? ==> log[i].version < log[k].version))
  {
    RunKeeps(s, actions);
    var log := Run(s, actions).log;
    forall e | e in log && e.job.Some? && e.token.Some? ensures e.token.value == e.version {
      assert EventSound(e, Run(s, actions).jobs);
    }
    forall i, k | 0 <= i < k < |log| && log[i].job.Some? && log[i].job == log[k].job
      ensures log[i].version <= log[k].version
      ensures log[k].kind.Claimed? ==> log[i].version < log[k].version
    {
      assert Ordered(log[i], log[k]);
    }
  }

  /**
   Once a version has been finished, cancelled or retried, no heartbeat, plan write demanding a
   RUNNING job, or finish of that version is ever written again, and it is never claimed anew.
   In particular each version has at most one finish, and no result follows a cancel at its version.
   */
  lemma ClosedVersionStaysClosed(s: System, actions: seq<Action>, i: nat, k: nat)
    requires Initial(s) && i < k < |Run(s, actions).log|
    requires var log := Run(s, actions).log;
      log[i].job.Some? && log[i].job == log[k].job && log[i].version == log[k].version && Closes(log[i])
    ensures var kind := Run(s, actions).log[k].kind; !kind.Claimed? && !RunningKind(kind)
  {
    RunKeeps(s, actions);
    var log := Run(s, actions).log;
    assert Ordered(log[i], log[k]);
  }

  /** The worker's token is older than the version stored for its job. */
  ghost predicate Behind(s: System, id: WorkerId) {
    && id in s.workers && s.workers[id].token.Some? && s.workers[id].job.Some?
    && s.workers[id].job.value in s.jobs
    && s.workers[id].token.value < s.jobs[s.workers[id].job.value].version
  }

  /** A superseded worker, its heartbeat thread included, changes no job and no plan column. */
  lemma SupersededWorkerIsInert(s: System, a: Action)
    requires Inv(s) && ActorOf(a).ByWorker? && Behind(s, a.worker)
    ensures Next(s, a).jobs == s.jobs && Next(s, a).plan == s.plan && Next(s, a).log == s.log
  {
    assert WorkerSound(s.workers[a.worker], s.jobs);
    assert Next(s, a) == WorkerStep(s, a);
    hide Inv, WorkerSound, Next, WorkerStep;
    if IsGuarded(a) {
      InertGuarded(s, a);
    } else {
      InertStep(s, a);
    }
  }

  lemma InertGuarded(s: System, a: Action)
    requires ActorOf(a).ByWorker? && IsGuarded(a) && Behind(s, a.worker) && WorkerSound(s.workers[a.worker], s.jobs)
    ensures var s' := WorkerStep(s, a); s'.jobs == s.jobs && s'.plan == s.plan && s'.log == s.log
  {
    hide GuardedWrite, PlanAfter, KindOf, WorkerSound, ClaimStep, TokenStep, HeartbeatStep, FinishStep, FailUnclaimedStep,
      UnfencedCancelStep, ReownStep, Current;
    InertWrite(s, a.worker, !a.Reconcile?, PlanAfter(s, s.workers[a.worker], a), KindOf(a));
  }

  lemma InertWrite(s: System, id: WorkerId, requireRunning: bool, plan: Plan, kind: Kind)
    requires Behind(s, id) && WorkerSound(s.workers[id], s.jobs)
    ensures var s' := GuardedWrite(s, id, requireRunning, plan, kind);
      s'.jobs == s.jobs && s'.plan == s.plan && s'.log == s.log
  {
    GuardFacts(s.jobs, s.workers[id], requireRunning);
    hide Guard, WorkerSound;
  }

  lemma InertStep(s: System, a: Action)
    requires ActorOf(a).ByWorker? && !IsGuarded(a) && Behind(s, a.worker) && WorkerSound(s.workers[a.worker], s.jobs)
    ensures var s' := WorkerStep(s, a); s'.jobs == s.jobs && s'.plan == s.plan && s'.log == s.log
  {
    hide Claimable, ClaimedJob, FinishedJob, Released;
  }

  /** `w'` is the same worker later: same job, and a token once read is kept. */
  predicate SameIdentity(w: Worker, w': Worker) {
    w'.job == w.job && (w.token.Some? ==> w'.token == w.token && w'.won == w.won)
  }

  lemma GuardedIdentity(s: System, id: WorkerId, requireRunning: bool, plan: Plan, kind: Kind)
    requires Inv(s) && id in s.workers
    ensures var s' := GuardedWrite(s, id, requireRunning, plan, kind);
      && s'.workers.Keys == s.workers.Keys && s'.workers[id].token == s.workers[id].token
      && SameIdentity(s.workers[id], s'.workers[id])
      && forall other <- s.workers | other != id :: s'.workers[other] == s.workers[other]
  {
    assert WorkerSound(s.workers[id], s.jobs);
    hide LogSound, WonDistinct, WorkerSound, Guard;
    GuardFacts(s.jobs, s.workers[id], requireRunning);
  }

  lemma UnguardedIdentity(s: System, a: Action, id: WorkerId)
    requires Inv(s) && id in s.workers && !(ActorOf(a).ByWorker? && IsGuarded(a))
    ensures id in Next(s, a).workers && SameIdentity(s.workers[id], Next(s, a).workers[id])
    ensures !a.TokenRead? ==> Next(s, a).workers[id].token == s.workers[id].token
  {
    assert WorkerSound(s.workers[id], s.jobs);
    hide Inv;
    if ActorOf(a) != ByWorker(id) || a.Heartbeat? {
      OthersFrame(s, a, id);
    } else {
      OwnIdentity(s, a, id);
    }
  }

  lemma OwnIdentity(s: System, a: Action, id: WorkerId)
    requires id in s.workers && WorkerSound(s.workers[id], s.jobs)
    requires ActorOf(a) == ByWorker(id) && !IsGuarded(a) && !a.Heartbeat?
    ensures id in WorkerStep(s, a).workers && SameIdentity(s.workers[id], WorkerStep(s, a).workers[id])
    ensures !a.TokenRead? ==> WorkerStep(s, a).workers[id].token == s.workers[id].token
  {
    hide Claimable, ClaimedJob, FinishedJob, Released;
    match a
    case ClaimUpdate(_, _, _) =>
    case Finish(_, _, _) =>
    case FailUnclaimed(_, _, _) =>
    case UnfencedCancel(_) =>
    case _ =>
  }

  lemma WorkerIdentityStays(s: System, a: Action, id: WorkerId)
    requires Inv(s) && id in s.workers
    ensures id in Next(s, a).workers && SameIdentity(s.workers[id], Next(s, a).workers[id])
    ensures !a.TokenRead? ==> Next(s, a).workers[id].token == s.workers[id].token
  {
    hide Inv, GuardedWrite, PlanAfter, KindOf;
    if ActorOf(a).ByWorker? && IsGuarded(a) {
      if a.worker in s.workers {
        GuardedIdentity(s, a.worker, !a.Reconcile?, PlanAfter(s, s.workers[a.worker], a), KindOf(a));
      }
    } else {
      UnguardedIdentity(s, a, id);
    }
  }

  lemma BehindIsForever(s: System, a: Action, id: WorkerId)
    requires Inv(s) && Behind(s, id)
    ensures Behind(Next(s, a), id)
  {
    StepKeeps(s, a);
    WorkerIdentityStays(s, a, id);
    assert LegalJob(s.jobs[s.workers[id].job.value], Next(s, a).jobs[s.workers[id].job.value]);
  }

  /** From the moment it is superseded a worker never writes again, in any continuation. */
  lemma {:induction false} SupersededWorkerNeverWrites(s: System, actions: seq<Action>, id: WorkerId)
    requires Inv(s) && Behind(s, id)
    ensures Behind(Run(s, actions), id)
    ensures s.log <= Run(s, actions).log
    ensures forall i | |s.log| <= i < |Run(s, actions).log| :: Run(s, actions).log[i].actor != ByWorker(id)
  {
    if actions != [] {
      var front, a := actions[..|actions| - 1], actions[|actions| - 1];
      RunKeeps(s, front);
      SupersededWorkerNeverWrites(s, front, id);
      BehindIsForever(Run(s, front), a, id);
      NewEventsAreTheActors(Run(s, front), a);
      if ActorOf(a) == ByWorker(id) {
        SupersededWorkerIsInert(Run(s, front), a);
      }
    }
  }

  /** A step appends at most one event, by its own actor, and every durable change appends one. */
  lemma NewEventsAreTheActors(s: System, a: Action)
    ensures s.log <= Next(s, a).log && |Next(s, a).log| <= |s.log| + 1
    ensures forall i | |s.log| <= i < |Next(s, a).log| :: Next(s, a).log[i].actor == ActorOf(a)
    ensures |Next(s, a).log| == |s.log| ==> Next(s, a).jobs == s.jobs && Next(s, a).plan == s.plan
  {
    StepFrame(s, a);
    hide Next;
  }

  // ---- terminal statuses --------------------------------------------------------

  predicate Terminal(job: Job) {
    job.status == Succeeded || job.status == Cancelled
  }

  /** No worker, heartbeat or queue step changes any column of a finished or cancelled job. */
  lemma TerminalJobIsFrozen(s: System, a: Action, j: JobId)
    requires Inv(s) && j in s.jobs && Terminal(s.jobs[j]) && !ActorOf(a).ByOperator?
    ensures j in Next(s, a).jobs && Next(s, a).jobs[j] == s.jobs[j]
  {
    hide Inv, GuardedWrite, PlanAfter, KindOf;
    if ActorOf(a).ByCaller? {
      TerminalSurvivesCallers(s, a, j);
    } else if a.worker in s.workers {
      if IsGuarded(a) {
        WorkerFrame(s, a);
      } else {
        TerminalSurvivesStep(s, a, j);
      }
    }
  }

  lemma TerminalSurvivesCallers(s: System, a: Action, j: JobId)
    requires ActorOf(a).ByCaller? && j in s.jobs
    ensures j in Next(s, a).jobs && Next(s, a).jobs[j] == s.jobs[j]
  {
    hide Active, Cleared;
  }

  /** The claim and the conditional UPDATEs match no finished or cancelled row. */
  lemma TerminalSurvivesStep(s: System, a: Action, j: JobId)
    requires ActorOf(a).ByWorker? && a.worker in s.workers && !IsGuarded(a) && j in s.jobs && Terminal(s.jobs[j])
    ensures j in WorkerStep(s, a).jobs && WorkerStep(s, a).jobs[j] == s.jobs[j]
  {
    hide ClaimedJob, FinishedJob, Released, Current;
    match a
    case ClaimUpdate(_, _, _) =>
    case Heartbeat(_, _) =>
    case Finish(_, _, _) =>
    case FailUnclaimed(_, _, _) =>
    case UnfencedCancel(_) =>
    case _ =>
  }

  lemma {:induction false} TerminalJobStaysFrozen(s: System, actions: seq<Action>, j: JobId)
    requires Inv(s) && j in s.jobs && Terminal(s.jobs[j])
    requires forall a <- actions :: a != OperatorCancel(j) && a != OperatorRetry(j)
    ensures j in Run(s, actions).jobs && Run(s, actions).jobs[j] == s.jobs[j]
  {
    if actions != [] {
      var front, a := actions[..|actions| - 1], actions[|actions| - 1];
      RunKeeps(s, front);
      assert forall b <- front :: b in actions;
      TerminalJobStaysFrozen(s, front, j);
      assert a in actions && front <= actions;
      if !ActorOf(a).ByOperator? {
        TerminalJobIsFrozen(Run(s, front), a, j);
      }
    }
  }

  // ---- token uniqueness ---------------------------------------------------------

  /** Every held token is the version its holder's own claim wrote. */
  ghost predicate Faithful(s: System) {
    forall id <- s.workers | s.workers[id].token.Some? :: s.workers[id].token == s.workers[id].won
  }

  /** The worker is about to read its token and no later claim has moved the version on. */
  ghost predicate PromptRead(s: System, a: Action) {
    a.TokenRead? && a.worker in s.workers && s.workers[a.worker].phase == AwaitingToken ==>
      var w := s.workers[a.worker];
      w.job.Some? && w.job.value in s.jobs && Some(s.jobs[w.job.value].version) == w.won
  }

  /** Every token read of the run is prompt. */
  ghost predicate PromptReads(s: System, actions: seq<Action>) {
    actions != [] ==>
      var front := actions[..|actions| - 1];
      PromptReads(s, front) && PromptRead(Run(s, front), actions[|actions| - 1])
  }

  /** Tokens are faithful in every state the run passes through. */
  ghost predicate FaithfulThroughout(s: System, actions: seq<Action>) {
    Faithful(Run(s, actions)) && (actions != [] ==> FaithfulThroughout(s, actions[..|actions| - 1]))
  }

  lemma WorkersStayRegistered(s: System, a: Action)
    ensures Next(s, a).workers.Keys == s.workers.Keys
  {
    hide Next;
    StepFrame(s, a);
  }

  lemma FaithfulStep(s: System, a: Action)
    requires Inv(s) && Faithful(s)
    ensures Faithful(Next(s, a)) <==> PromptRead(s, a)
  {
    if a.TokenRead? {
      FaithfulTokenRead(s, a.worker);
    } else {
      WorkersStayRegistered(s, a);
      forall id | id in s.workers && Next(s, a).workers[id].token.Some?
        ensures Next(s, a).workers[id].token == Next(s, a).workers[id].won
      {
        WorkerIdentityStays(s, a, id);
      }
    }
  }

  lemma FaithfulTokenRead(s: System, id: WorkerId)
    requires Inv(s) && Faithful(s)
    ensures Faithful(Next(s, TokenRead(id))) <==> PromptRead(s, TokenRead(id))
  {
    if id in s.workers && s.workers[id].phase == AwaitingToken {
      var w := s.workers[id];
      assert WorkerSound(w, s.jobs);
      var s' := TokenStep(s, id);
      assert Next(s, TokenRead(id)) == s';
      assert s'.workers == s.workers[id := w.(token := Some(s.jobs[w.job.value].version), phase := Working)];
      assert s'.workers[id].token == Some(s.jobs[w.job.value].version) && s'.workers[id].won == w.won;
      if PromptRead(s, TokenRead(id)) {
        forall other | other in s'.workers && s'.workers[other].token.Some?
          ensures s'.workers[other].token == s'.workers[other].won
        {
          assert other == id || s'.workers[other] == s.workers[other];
        }
      }
    }
  }

  /** Tokens are the holders' own throughout a run exactly when every read of it is prompt. */
  lemma {:induction false} FaithfulIffPrompt(s: System, actions: seq<Action>)
    requires Initial(s)
    ensures FaithfulThroughout(s, actions) <==> PromptReads(s, actions)
  {
    if actions != [] {
      var front := actions[..|actions| - 1];
      FaithfulIffPrompt(s, front);
      RunKeeps(s, front);
      if Faithful(Run(s, front)) {
        FaithfulStep(Run(s, front), actions[|actions| - 1]);
      }
    }
  }

  function TwoWorkers(): System {
    var w := Worker(Some(0), Fresh, false, None, false, None);
    System(map[0 := NewJob], Plan(Some(0), ExecutionQueued, true, None), map[1 := w, 2 := w],
           map[], 0, 0, 0, [])
  }

  /**
   Without that condition uniqueness fails: the operator cancels and retries between worker 1's
   claim and its token read, worker 2 claims, and both read version 2 and may write the plan row.
   */
  lemma LateReadSharesToken()
    ensures Initial(TwoWorkers())
    ensures var r := Run(TwoWorkers(), LateReads());
      && 1 in r.workers && 2 in r.workers && r.workers[1].token == r.workers[2].token == Some(2)
      && Event(ByWorker(1), Some(0), 2, Some(2), AnalyzingWritten) in r.log
      && Event(ByWorker(2), Some(0), 2, Some(2), AnalyzingWritten) in r.log
  {
    RunConcat(TwoWorkers(), LateClaims(), LateTokens());
    LateClaimStates();
    LateTokensShare(Run(TwoWorkers(), LateClaims()));
  }

  /** Worker 1 has claimed version 1, worker 2 version 2, and both await their tokens. */
  ghost predicate BothAwait(s: System) {
    && 0 in s.jobs && s.jobs[0].status == Running && s.jobs[0].version == 2
    && 1 in s.workers && s.workers[1] == Worker(Some(0), AwaitingToken, true, None, false, Some(1))
    && 2 in s.workers && s.workers[2] == Worker(Some(0), AwaitingToken, true, None, false, Some(2))
  }

  lemma LateTokensShare(s: System)
    requires BothAwait(s)
    ensures var r := Run(s, LateTokens());
      && 1 in r.workers && 2 in r.workers && r.workers[1].token == r.workers[2].token == Some(2)
      && Event(ByWorker(1), Some(0), 2, Some(2), AnalyzingWritten) in r.log
      && Event(ByWorker(2), Some(0), 2, Some(2), AnalyzingWritten) in r.log
  {
    RunOfFour(s, TokenRead(1), TokenRead(2), WriteAnalyzing(1), WriteAnalyzing(2));
    SharedTokenWrites(Next(Next(s, TokenRead(1)), TokenRead(2)));
  }

  function LateClaims(): seq<Action> {
    [ClaimUpdate(1, 10, 0), OperatorCancel(0), OperatorRetry(0), ClaimUpdate(2, 20, 0)]
  }

  function LateTokens(): seq<Action> { [TokenRead(1), TokenRead(2), WriteAnalyzing(1), WriteAnalyzing(2)] }

  function LateReads(): seq<Action> { LateClaims() + LateTokens() }

  lemma LateClaimStates()
    ensures BothAwait(Run(TwoWorkers(), LateClaims()))
  {
    RunOfFour(TwoWorkers(), ClaimUpdate(1, 10, 0), OperatorCancel(0), OperatorRetry(0), ClaimUpdate(2, 20, 0));
    FirstClaim();
    SecondClaim(Next(TwoWorkers(), ClaimUpdate(1, 10, 0)));
  }

  lemma FirstClaim()
    ensures OneAwaits(Next(TwoWorkers(), ClaimUpdate(1, 10, 0)))
  {
  }

  /** Worker 1 has claimed version 1; worker 2 has not tried yet. */
  ghost predicate OneAwaits(s: System) {
    && 0 in s.jobs && s.jobs[0].status == Running && s.jobs[0].version == 1
    && 1 in s.workers && s.workers[1] == Worker(Some(0), AwaitingToken, true, None, false, Some(1))
    && 2 in s.workers && s.workers[2] == Worker(Some(0), Fresh, false, None, false, None)
  }

  lemma SecondClaim(s1: System)
    requires OneAwaits(s1)
    ensures BothAwait(Next(Next(Next(s1, OperatorCancel(0)), OperatorRetry(0)), ClaimUpdate(2, 20, 0)))
  {
    var s3 := Next(Next(s1, OperatorCancel(0)), OperatorRetry(0));
    assert s3.jobs[0].status == Queued && s3.jobs[0].version == 1 && s3.workers == s1.workers;
  }

  lemma SharedTokenWrites(s: System)
    requires 0 in s.jobs && s.jobs[0].status == Running && s.jobs[0].version == 2
    requires forall id | id == 1 || id == 2 ::
      id in s.workers && s.workers[id].(won := None) == Worker(Some(0), Working, true, Some(2), false, None)
    ensures var r := Next(Next(s, WriteAnalyzing(1)), WriteAnalyzing(2));
      && r.workers == s.workers
      && Event(ByWorker(1), Some(0), 2, Some(2), AnalyzingWritten) in r.log
      && Event(ByWorker(2), Some(0), 2, Some(2), AnalyzingWritten) in r.log
  {
    var s' := Next(s, WriteAnalyzing(1));
    assert s'.workers == s.workers && s'.jobs == s.jobs;
    assert s'.log[|s.log|] == Event(ByWorker(1), Some(0), 2, Some(2), AnalyzingWritten);
    var r := Next(s', WriteAnalyzing(2));
    assert r.workers == s'.workers;
    assert r.log[|s.log|] == s'.log[|s.log|];
    assert r.log[|s.log| + 1] == Event(ByWorker(2), Some(0), 2, Some(2), AnalyzingWritten);
  }
}
