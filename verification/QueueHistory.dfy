/** Which histories of one plan row keep at most one active job. */
module QueueHistory {
  import opened Wrappers
  import opened JobFrames
  import opened JobProtocol
  import opened JobTheorems
  import opened JobTokens
  import opened QueueTheorems

  // ---- activity as the history tells it ------------------------------------------------------------

  function IsActive(jobs: map<JobId, Job>, j: JobId): bool { j in jobs && Active(jobs[j]) }

  /** Writes that make a job QUEUED or RUNNING. */
  predicate Activates(e: Event) { e.kind.Enqueued? || e.kind.OperatorRetried? || e.kind.Claimed? }

  /** Writes that take a job out of QUEUED and RUNNING. */
  predicate Deactivates(e: Event) { e.kind.Finished? || e.kind.OperatorCancelled? || e.kind.UnclaimedFailed? }

  /** The job has been activated, and not finished, failed or cancelled since; `before` if neither was written. */
  function Standing(log: seq<Event>, j: JobId, before: bool): bool {
    if log == [] then before
    else
      var e := log[|log| - 1];
      if e.job == Some(j) && Activates(e) then true
      else if e.job == Some(j) && Deactivates(e) then false
      else Standing(log[..|log| - 1], j, before)
  }

  lemma StandingOne(e: Event, j: JobId, before: bool)
    ensures Standing([e], j, before)
         == if e.job == Some(j) && Activates(e) then true else if e.job == Some(j) && Deactivates(e) then false else before
  {
    assert [e][..0] == [];
  }

  lemma {:induction false} StandingConcat(a: seq<Event>, b: seq<Event>, j: JobId, before: bool)
    ensures Standing(a + b, j, before) == Standing(b, j, Standing(a, j, before))
  {
    if b == [] {
      assert a + b == a;
    } else {
      StandingConcat(a, b[..|b| - 1], j, before);
      assert (a + b)[..|a + b| - 1] == a + b[..|b| - 1];
    }
  }

  /** What this step adds to the history. */
  function Added(s: System, a: Action): seq<Event>
    requires |s.log| <= |Next(s, a).log|
  {
    Next(s, a).log[|s.log|..]
  }

  lemma AddedAtMostOne(s: System, a: Action)
    ensures |s.log| <= |Next(s, a).log| && Next(s, a).log == s.log + Added(s, a) && |Added(s, a)| <= 1
  {
    hide Next, ActorOf;
    NewEventsAreTheActors(s, a);
  }

  /** If the step wrote an event, that tells whether the job is active after it. */
  predicate Tells(s: System, s': System, j: JobId) {
    |s.log| < |s'.log| ==> IsActive(s'.jobs, j) == Standing([s'.log[|s.log|]], j, IsActive(s.jobs, j))
  }

  lemma ClaimTells(s: System, id: WorkerId, now: Instant, staleBefore: Instant, j: JobId)
    requires id in s.workers
    ensures Tells(s, ClaimStep(s, id, now, staleBefore), j)
  {
    var s' := ClaimStep(s, id, now, staleBefore);
    if |s.log| < |s'.log| {
      StandingOne(s'.log[|s.log|], j, IsActive(s.jobs, j));
      hide Claimable;
    }
  }

  lemma HeartbeatTells(s: System, id: WorkerId, now: Instant, j: JobId)
    requires id in s.workers
    ensures Tells(s, HeartbeatStep(s, id, now), j)
  {
    var s' := HeartbeatStep(s, id, now);
    if |s.log| < |s'.log| {
      StandingOne(s'.log[|s.log|], j, IsActive(s.jobs, j));
    }
  }

  lemma FinishTells(s: System, id: WorkerId, outcome: Outcome, now: Instant, j: JobId)
    requires id in s.workers
    ensures Tells(s, FinishStep(s, id, outcome, now), j)
  {
    var s' := FinishStep(s, id, outcome, now);
    if |s.log| < |s'.log| {
      StandingOne(s'.log[|s.log|], j, IsActive(s.jobs, j));
    }
  }

  lemma FailUnclaimedTells(s: System, id: WorkerId, failure: Failure, now: Instant, j: JobId)
    requires id in s.workers
    ensures Tells(s, FailUnclaimedStep(s, id, failure, now), j)
  {
    var s' := FailUnclaimedStep(s, id, failure, now);
    if |s.log| < |s'.log| {
      StandingOne(s'.log[|s.log|], j, IsActive(s.jobs, j));
      hide Released;
    }
  }

  lemma UnfencedCancelTells(s: System, id: WorkerId, j: JobId)
    requires id in s.workers
    ensures Tells(s, UnfencedCancelStep(s, id), j)
  {
    var s' := UnfencedCancelStep(s, id);
    if |s.log| < |s'.log| {
      StandingOne(s'.log[|s.log|], j, IsActive(s.jobs, j));
      hide Released;
    }
  }

  lemma WorkerActivity(s: System, a: Action, j: JobId)
    requires ActorOf(a).ByWorker? && a.worker in s.workers && !IsGuarded(a) && |s.log| < |Next(s, a).log|
    ensures IsActive(Next(s, a).jobs, j) == Standing([Next(s, a).log[|s.log|]], j, IsActive(s.jobs, j))
  {
    hide ClaimStep, HeartbeatStep, FinishStep, FailUnclaimedStep, UnfencedCancelStep, Current, Standing, IsActive;
    match a
    case ClaimUpdate(id, now, staleBefore) => ClaimTells(s, id, now, staleBefore, j);
    case Heartbeat(id, now) => HeartbeatTells(s, id, now, j);
    case Finish(id, outcome, now) => FinishTells(s, id, outcome, now, j);
    case FailUnclaimed(id, failure, now) => FailUnclaimedTells(s, id, failure, now, j);
    case UnfencedCancel(id) => UnfencedCancelTells(s, id, j);
    case _ =>
  }

  lemma GuardedActivity(s: System, a: Action, j: JobId)
    requires ActorOf(a).ByWorker? && a.worker in s.workers && IsGuarded(a) && |s.log| < |Next(s, a).log|
    ensures IsActive(Next(s, a).jobs, j) == Standing([Next(s, a).log[|s.log|]], j, IsActive(s.jobs, j))
  {
    StandingOne(Next(s, a).log[|s.log|], j, IsActive(s.jobs, j));
  }

  lemma OtherActivity(s: System, a: Action, j: JobId)
    requires !ActorOf(a).ByWorker? && |s.log| < |Next(s, a).log|
    ensures IsActive(Next(s, a).jobs, j) == Standing([Next(s, a).log[|s.log|]], j, IsActive(s.jobs, j))
  {
    StandingOne(Next(s, a).log[|s.log|], j, IsActive(s.jobs, j));
  }

  lemma ActivityMoves(s: System, a: Action, j: JobId)
    ensures |s.log| <= |Next(s, a).log| && Next(s, a).log == s.log + Added(s, a)
    ensures IsActive(Next(s, a).jobs, j) == Standing(Added(s, a), j, IsActive(s.jobs, j))
  {
    AddedAtMostOne(s, a);
    NewEventsAreTheActors(s, a);
    if |Added(s, a)| == 1 {
      assert Added(s, a) == [Next(s, a).log[|s.log|]];
      if !ActorOf(a).ByWorker? {
        OtherActivity(s, a, j);
      } else if a.worker in s.workers {
        if IsGuarded(a) {
          GuardedActivity(s, a, j);
        } else {
          WorkerActivity(s, a, j);
        }
      }
    }
  }

  /** The history between two states of a run. */
  function Since(s: System, actions: seq<Action>, i: nat, n: nat): seq<Event>
    requires i <= |actions| && n <= |actions| && |At(s, actions, i).log| <= |At(s, actions, n).log|
  {
    At(s, actions, n).log[|At(s, actions, i).log|..]
  }

  lemma {:induction false} LogGrows(s: System, actions: seq<Action>, i: nat, n: nat)
    requires i <= n <= |actions|
    ensures At(s, actions, i).log <= At(s, actions, n).log
    decreases n - i
  {
    if i < n {
      LogGrows(s, actions, i, n - 1);
      AtNext(s, actions, n - 1);
      AddedAtMostOne(At(s, actions, n - 1), actions[n - 1]);
    }
  }

  lemma SinceNext(s: System, actions: seq<Action>, i: nat, n: nat)
    requires i <= n < |actions|
    ensures |At(s, actions, i).log| <= |At(s, actions, n).log| <= |At(s, actions, n + 1).log|
    ensures |At(s, actions, n).log| <= |Next(At(s, actions, n), actions[n]).log|
    ensures Since(s, actions, i, n + 1) == Since(s, actions, i, n) + Added(At(s, actions, n), actions[n])
  {
    LogGrows(s, actions, i, n);
    AtNext(s, actions, n);
    AddedAtMostOne(At(s, actions, n), actions[n]);
  }

  /** A job is active exactly when the history since any earlier state leaves it standing. */
  lemma {:induction false} ActiveAsLogged(s: System, actions: seq<Action>, i: nat, n: nat, j: JobId)
    requires i <= n <= |actions|
    ensures |At(s, actions, i).log| <= |At(s, actions, n).log|
    ensures IsActive(At(s, actions, n).jobs, j) == Standing(Since(s, actions, i, n), j, IsActive(At(s, actions, i).jobs, j))
    decreases n - i
  {
    LogGrows(s, actions, i, n);
    if i == n {
      assert Since(s, actions, i, n) == [];
    } else {
      ActiveAsLogged(s, actions, i, n - 1, j);
      SinceNext(s, actions, i, n - 1);
      AtNext(s, actions, n - 1);
      ActivityMoves(At(s, actions, n - 1), actions[n - 1], j);
      StandingConcat(Since(s, actions, i, n - 1), Added(At(s, actions, n - 1), actions[n - 1]), j,
                     IsActive(At(s, actions, i).jobs, j));
    }
  }

  // ---- what a caller's read is worth ---------------------------------------------------------------

  /** Action `r` is the last thing the caller did before action `n`: its read of the active job. */
  ghost predicate ReadLast(actions: seq<Action>, r: nat, n: nat, c: CallerId) {
    && r < n <= |actions| && actions[r] == ReadActive(c)
    && forall m | r < m < n :: ActorOf(actions[m]) != ByCaller(c)
  }

  lemma ClearedMoves(s: System, a: Action, c: CallerId)
    ensures Cleared(Next(s, a), c)
       <==> if ActorOf(a) != ByCaller(c) then Cleared(s, c) else a.ReadActive? && forall j <- s.jobs :: !Active(s.jobs[j])
  {
    if !ActorOf(a).ByCaller? {
      CallersFrame(s, a);
      hide Next;
    } else {
      hide WorkerStep, Active, CancelStep, RetryStep;
    }
  }

  /** A caller goes on exactly on its own last read, if that found nothing active. */
  lemma {:induction false} ClearedByRead(s: System, actions: seq<Action>, n: nat, c: CallerId) returns (r: nat)
    requires Initial(s) && n <= |actions| && Cleared(At(s, actions, n), c)
    ensures ReadLast(actions, r, n, c) && forall j: JobId :: !IsActive(At(s, actions, r).jobs, j)
  {
    if n == 0 {
      NothingCleared(s, actions, c);
      assert false;
    }
    AtNext(s, actions, n - 1);
    ClearedMoves(At(s, actions, n - 1), actions[n - 1], c);
    if ActorOf(actions[n - 1]) == ByCaller(c) {
      r := n - 1;
    } else {
      r := ClearedByRead(s, actions, n - 1, c);
    }
  }

  lemma NothingCleared(s: System, actions: seq<Action>, c: CallerId)
    requires Initial(s)
    ensures !Cleared(At(s, actions, 0), c)
  {
    assert actions[..0] == [];
  }

  // ---- the guards -----------------------------------------------------------------------------------

  /** No job but `j` stands at action `n`, by the whole history. */
  ghost predicate NoOtherStands(s: System, actions: seq<Action>, n: nat, j: JobId)
    requires n <= |actions| && |s.log| <= |At(s, actions, n).log|
  {
    forall k: JobId | k != j :: !Standing(At(s, actions, n).log[|s.log|..], k, IsActive(s.jobs, k))
  }

  /** No job activated since the caller's read stands at action `n`. */
  ghost predicate NoneSinceRead(s: System, actions: seq<Action>, n: nat, c: CallerId)
    requires n <= |actions|
  {
    forall r: nat | ReadLast(actions, r, n, c) && |At(s, actions, r).log| <= |At(s, actions, n).log| ::
      forall k: JobId :: !Standing(Since(s, actions, r, n), k, false)
  }

  /** The guard of an activation: an enqueue trusts its caller's read, a retry or a claim nothing at all. */
  ghost predicate GuardHolds(s: System, actions: seq<Action>, n: nat)
    requires n < |actions| && |s.log| <= |At(s, actions, n).log|
  {
    var a, j := actions[n], Activated(At(s, actions, n), actions[n]);
    j.Some? ==> if a.Enqueue? then NoneSinceRead(s, actions, n, a.caller) else NoOtherStands(s, actions, n, j.value)
  }

  lemma LogOfRun(s: System, actions: seq<Action>, n: nat)
    requires n <= |actions|
    ensures |s.log| <= |At(s, actions, n).log| && At(s, actions, 0) == s
  {
    assert actions[..0] == [];
    LogGrows(s, actions, 0, n);
  }

  ghost predicate OthersIdle(jobs: map<JobId, Job>, j: JobId) {
    forall k: JobId | k != j :: !IsActive(jobs, k)
  }

  lemma AloneIsIdle(s: System, a: Action)
    requires Activated(s, a).Some?
    ensures Alone(s, a) <==> OthersIdle(s.jobs, Activated(s, a).value)
  {
    if OthersIdle(s.jobs, Activated(s, a).value) {
      forall k | k in s.jobs && Active(s.jobs[k]) ensures k == Activated(s, a).value {
        assert IsActive(s.jobs, k);
      }
    }
  }

  lemma AloneByHistory(s: System, actions: seq<Action>, n: nat)
    requires n < |actions| && Activated(At(s, actions, n), actions[n]).Some?
    ensures |s.log| <= |At(s, actions, n).log|
    ensures Alone(At(s, actions, n), actions[n])
       <==> NoOtherStands(s, actions, n, Activated(At(s, actions, n), actions[n]).value)
  {
    LogOfRun(s, actions, n);
    var jobs, log := At(s, actions, n).jobs, At(s, actions, n).log[|s.log|..];
    forall k: JobId ensures IsActive(jobs, k) == Standing(log, k, IsActive(s.jobs, k)) {
      ActiveAsLogged(s, actions, 0, n, k);
    }
    var j := Activated(At(s, actions, n), actions[n]).value;
    AloneIsIdle(At(s, actions, n), actions[n]);
    assert OthersIdle(jobs, j) <==> forall k: JobId | k != j :: !Standing(log, k, IsActive(s.jobs, k));
  }

  lemma SinceReadIs(s: System, actions: seq<Action>, r: nat, n: nat, c: CallerId)
    requires ReadLast(actions, r, n, c) && forall j: JobId :: !IsActive(At(s, actions, r).jobs, j)
    ensures |At(s, actions, r).log| <= |At(s, actions, n).log|
    ensures NoneSinceRead(s, actions, n, c) <==> forall k: JobId :: !IsActive(At(s, actions, n).jobs, k)
  {
    LogGrows(s, actions, r, n);
    forall k: JobId ensures IsActive(At(s, actions, n).jobs, k) == Standing(Since(s, actions, r, n), k, false) {
      ActiveAsLogged(s, actions, r, n, k);
    }
    forall r': nat | ReadLast(actions, r', n, c) ensures r' == r {
      assert ActorOf(actions[r]) == ByCaller(c) && ActorOf(actions[r']) == ByCaller(c);
    }
  }

  /** An enqueue breaks the guarantee exactly when a job activated since its caller's read is still active. */
  lemma EnqueueAloneIff(s: System, actions: seq<Action>, n: nat)
    requires Initial(s) && n < |actions| && actions[n].Enqueue? && Activated(At(s, actions, n), actions[n]).Some?
    ensures Alone(At(s, actions, n), actions[n]) <==> NoneSinceRead(s, actions, n, actions[n].caller)
  {
    var r := ClearedByRead(s, actions, n, actions[n].caller);
    SinceReadIs(s, actions, r, n, actions[n].caller);
    AloneIsIdle(At(s, actions, n), actions[n]);
    assert !IsActive(At(s, actions, n).jobs, actions[n].job);
  }

  lemma AloneIffGuard(s: System, actions: seq<Action>, n: nat)
    requires Initial(s) && n < |actions|
    ensures |s.log| <= |At(s, actions, n).log|
    ensures Alone(At(s, actions, n), actions[n]) <==> GuardHolds(s, actions, n)
  {
    LogOfRun(s, actions, n);
    if Activated(At(s, actions, n), actions[n]).Some? {
      if actions[n].Enqueue? {
        EnqueueAloneIff(s, actions, n);
      } else {
        AloneByHistory(s, actions, n);
      }
    }
  }

  ghost predicate AloneAt(s: System, actions: seq<Action>, m: nat) {
    m < |actions| ==> Alone(At(s, actions, m), actions[m])
  }

  lemma AloneSnoc(s: System, actions: seq<Action>, n: nat)
    requires n < |actions|
    ensures AloneThroughout(s, actions[..n + 1]) <==> AloneThroughout(s, actions[..n]) && AloneAt(s, actions, n)
  {
    assert actions[..n + 1][..n] == actions[..n];
  }

  lemma {:induction false} AloneEverywhere(s: System, actions: seq<Action>, n: nat)
    requires n <= |actions|
    ensures AloneThroughout(s, actions[..n]) <==> forall m: nat | m < n :: AloneAt(s, actions, m)
  {
    if n > 0 {
      AloneEverywhere(s, actions, n - 1);
      AloneSnoc(s, actions, n - 1);
    }
  }

  ghost predicate GuardsHold(s: System, actions: seq<Action>) {
    forall n: nat | n < |actions| && |s.log| <= |At(s, actions, n).log| :: GuardHolds(s, actions, n)
  }

  /**
   A plan row has at most one active job throughout a run exactly when, by the history, every enqueue
   finds no job standing that was activated since its caller's read, and every retry and claim finds
   no other job standing.
   */
  lemma AtMostOneByHistoryIff(s: System, actions: seq<Action>)
    requires Initial(s) && AtMostOneActive(s.jobs)
    ensures AtMostOneThroughout(s, actions) <==> GuardsHold(s, actions)
  {
    AtMostOneActiveIff(s, actions);
    assert actions[..|actions|] == actions;
    AloneEverywhere(s, actions, |actions|);
    forall n: nat | n < |actions|
      ensures |s.log| <= |At(s, actions, n).log| && (AloneAt(s, actions, n) <==> GuardHolds(s, actions, n))
    {
      AloneIffGuard(s, actions, n);
    }
  }

  // ---- a discipline that suffices ------------------------------------------------------------------

  /** Every active job holds the slot, so at most one is active. */
  ghost predicate OnlyHolderActive(s: System) {
    forall j <- s.jobs :: Active(s.jobs[j]) ==> s.plan.activeJob == Some(j)
  }

  /** The slot is given up only when its job is no longer active, and a retry or claim revives only the job that holds it. */
  predicate Disciplined(s: System, a: Action) {
    && (s.plan.activeJob.Some? && Next(s, a).plan.activeJob != s.plan.activeJob ==>
          !IsActive(Next(s, a).jobs, s.plan.activeJob.value))
    && (Activated(s, a).Some? && !a.Enqueue? ==>
          IsActive(s.jobs, Activated(s, a).value) || s.plan.activeJob == Activated(s, a))
  }

  lemma DisciplineKeeps(s: System, a: Action)
    requires OnlyHolderActive(s) && Disciplined(s, a)
    ensures OnlyHolderActive(Next(s, a))
  {
    forall k | k in Next(s, a).jobs && Active(Next(s, a).jobs[k]) ensures Next(s, a).plan.activeJob == Some(k) {
      ActiveAfter(s, a, k);
      if Activated(s, a) == Some(k) && a.Enqueue? {
        assert Next(s, a).plan.activeJob == Some(k);
      } else {
        assert s.plan.activeJob == Some(k);
      }
    }
  }

  ghost predicate DisciplinedThroughout(s: System, actions: seq<Action>) {
    forall n: nat | n < |actions| :: Disciplined(At(s, actions, n), actions[n])
  }

  /** With slots given up only by inactive jobs, and revived only by their holders, at most one job is active. */
  lemma {:induction false} DisciplineSuffices(s: System, actions: seq<Action>, n: nat)
    requires OnlyHolderActive(s) && DisciplinedThroughout(s, actions) && n <= |actions|
    ensures OnlyHolderActive(At(s, actions, n)) && AtMostOneActive(At(s, actions, n).jobs)
  {
    if n == 0 {
      assert actions[..0] == [];
    } else {
      DisciplineSuffices(s, actions, n - 1);
      AtNext(s, actions, n - 1);
      DisciplineKeeps(At(s, actions, n - 1), actions[n - 1]);
    }
  }

  function FailedRow(): System {
    System(map[0 := NewJob.(status := Failed)], Plan(None, ExecutionFailed, true, None), map[], map[], 0, 0, 0, [])
  }

  /** The caller has read that nothing is active; then job 0 is retried while nothing else is active. */
  function RevivedRow(): System { Next(Next(FailedRow(), ReadActive(7)), OperatorRetry(0)) }

  lemma RevivedState()
    ensures Cleared(RevivedRow(), 7) && RevivedRow().plan.activeJob == None
    ensures RevivedRow().jobs.Keys == {0} && RevivedRow().jobs[0].status == Queued
  {
    var s1 := Next(FailedRow(), ReadActive(7));
    assert s1.jobs == FailedRow().jobs && Cleared(s1, 7) && s1.plan == FailedRow().plan;
  }

  /**
   That no other job is active when one is retried is not enough: the slot stays free, so a caller that
   read before enqueues a second job.
   */
  lemma LoneRetryLetsSecondJobIn()
    ensures Initial(FailedRow()) && OnlyHolderActive(FailedRow())
    ensures Alone(Next(FailedRow(), ReadActive(7)), OperatorRetry(0))
    ensures var r := Next(RevivedRow(), Enqueue(7, 1)); IsActive(r.jobs, 0) && IsActive(r.jobs, 1)
  {
    LoneRetry();
    RevivedState();
    hide RevivedRow, Alone;
  }

  lemma LoneRetry()
    ensures Alone(Next(FailedRow(), ReadActive(7)), OperatorRetry(0))
  {
  }
}
