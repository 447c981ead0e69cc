/** Which job holds the slot `active_job_id` of a plan row, as the history tells it. */
module SlotHistory {
  import opened Wrappers
  import opened JobProtocol
  import opened JobTheorems
  import opened JobTokens
  import opened QueueHistory

  /** Writes that put their job into the slot. */
  predicate Takes(e: Event) { e.kind.Enqueued? || e.kind.AnalyzingWritten? }

  /** Writes that empty the slot, whoever holds it. */
  predicate Frees(e: Event) {
    || e.kind.FailureWritten? || e.kind.CancellationWritten? || e.kind.Reconciled? || e.kind.UnfencedWritten?
    || e.kind.UnclaimedFailed? || e.kind.StaleCleared? || (e.kind.ResultWritten? && e.kind.inPlace)
  }

  /** The holder of the slot: the job of the last write that took it, unless one has emptied it since. */
  function Holder(log: seq<Event>, before: Option<JobId>): Option<JobId> {
    if log == [] then before
    else
      var e := log[|log| - 1];
      if Takes(e) then e.job else if Frees(e) then None else Holder(log[..|log| - 1], before)
  }

  lemma HolderOne(e: Event, before: Option<JobId>)
    ensures Holder([e], before) == if Takes(e) then e.job else if Frees(e) then None else before
  {
    assert [e][..0] == [];
  }

  lemma {:induction false} HolderConcat(a: seq<Event>, b: seq<Event>, before: Option<JobId>)
    ensures Holder(a + b, before) == Holder(b, Holder(a, before))
  {
    if b == [] {
      assert a + b == a;
    } else {
      HolderConcat(a, b[..|b| - 1], before);
      assert (a + b)[..|a + b| - 1] == a + b[..|b| - 1];
    }
  }

  lemma GuardedSlot(s: System, a: Action)
    requires ActorOf(a).ByWorker? && a.worker in s.workers && IsGuarded(a) && |s.log| < |Next(s, a).log|
    ensures Next(s, a).plan.activeJob == Holder([Next(s, a).log[|s.log|]], s.plan.activeJob)
  {
    HolderOne(Next(s, a).log[|s.log|], s.plan.activeJob);
    match a
    case WriteAnalyzing(_) =>
    case Persist(_, _, _) =>
    case WriteFailed(_) =>
    case WriteCancelled(_) =>
    case Reconcile(_) =>
  }

  lemma UnguardedSlot(s: System, a: Action)
    requires ActorOf(a).ByWorker? && a.worker in s.workers && !IsGuarded(a) && |s.log| < |Next(s, a).log|
    ensures Next(s, a).plan.activeJob == Holder([Next(s, a).log[|s.log|]], s.plan.activeJob)
  {
    HolderOne(Next(s, a).log[|s.log|], s.plan.activeJob);
    match a
    case ClaimUpdate(_, _, _) =>
    case Heartbeat(_, _) =>
    case Finish(_, _, _) =>
    case FailUnclaimed(_, _, _) =>
    case UnfencedCancel(_) =>
    case _ =>
  }

  lemma OtherSlot(s: System, a: Action)
    requires !ActorOf(a).ByWorker? && |s.log| < |Next(s, a).log|
    ensures Next(s, a).plan.activeJob == Holder([Next(s, a).log[|s.log|]], s.plan.activeJob)
  {
    HolderOne(Next(s, a).log[|s.log|], s.plan.activeJob);
  }

  lemma SlotMoves(s: System, a: Action)
    ensures |s.log| <= |Next(s, a).log| && Next(s, a).log == s.log + Added(s, a)
    ensures Next(s, a).plan.activeJob == Holder(Added(s, a), s.plan.activeJob)
  {
    AddedAtMostOne(s, a);
    NewEventsAreTheActors(s, a);
    if |Added(s, a)| == 1 {
      assert Added(s, a) == [Next(s, a).log[|s.log|]];
      if !ActorOf(a).ByWorker? {
        OtherSlot(s, a);
      } else if a.worker in s.workers {
        if IsGuarded(a) {
          GuardedSlot(s, a);
        } else {
          UnguardedSlot(s, a);
        }
      }
    }
  }

  /** In every state of every run the slot holds the job the history names. */
  lemma {:induction false} SlotAsLogged(s: System, actions: seq<Action>, n: nat)
    requires Initial(s) && n <= |actions|
    ensures At(s, actions, n).plan.activeJob == Holder(At(s, actions, n).log, s.plan.activeJob)
  {
    if n == 0 {
      assert actions[..0] == [];
    } else {
      SlotAsLogged(s, actions, n - 1);
      AtNext(s, actions, n - 1);
      SlotMoves(At(s, actions, n - 1), actions[n - 1]);
      HolderConcat(At(s, actions, n - 1).log, Added(At(s, actions, n - 1), actions[n - 1]), s.plan.activeJob);
    }
  }

  // ---- whose slot a release frees ------------------------------------------------------------------

  /** No write from place `m` on concerns the slot. */
  ghost predicate Untouched(log: seq<Event>, m: nat) {
    forall i | m <= i < |log| :: !Takes(log[i]) && !Frees(log[i])
  }

  /** The write at place `m` put job `j` into the slot, and none has concerned the slot since. */
  ghost predicate TookSlot(log: seq<Event>, m: nat, j: JobId) {
    m < |log| && Takes(log[m]) && log[m].job == Some(j) && Untouched(log, m + 1)
  }

  /** Job `j` took the slot, or had it at first, and no write has concerned the slot since. */
  ghost predicate HoldsSince(log: seq<Event>, before: Option<JobId>, j: JobId) {
    || (exists m: nat :: TookSlot(log, m, j))
    || (before == Some(j) && Untouched(log, 0))
  }

  lemma UntouchedSnoc(log: seq<Event>, m: nat)
    requires log != [] && m < |log|
    ensures Untouched(log, m)
       <==> Untouched(log[..|log| - 1], m) && !Takes(log[|log| - 1]) && !Frees(log[|log| - 1])
  {
    var front := log[..|log| - 1];
    if Untouched(front, m) && !Takes(log[|log| - 1]) && !Frees(log[|log| - 1]) {
      forall i | m <= i < |log| ensures !Takes(log[i]) && !Frees(log[i]) {
        if i < |log| - 1 {
          assert front[i] == log[i];
        }
      }
    }
    if Untouched(log, m) {
      forall i | m <= i < |front| ensures !Takes(front[i]) && !Frees(front[i]) {
        assert front[i] == log[i];
      }
    }
  }

  lemma {:induction false} HolderIff(log: seq<Event>, before: Option<JobId>, j: JobId)
    ensures Holder(log, before) == Some(j) <==> HoldsSince(log, before, j)
  {
    if log == [] {
      assert Untouched(log, 0);
    } else {
      var front, e := log[..|log| - 1], log[|log| - 1];
      HolderIff(front, before, j);
      if Takes(e) {
        HolderTaken(log, before, j);
      } else if Frees(e) {
        HolderFreed(log, before, j);
      } else {
        HolderKept(log, before, j);
      }
    }
  }

  lemma TookSlotSnoc(log: seq<Event>, m: nat, j: JobId)
    requires log != [] && m < |log| - 1
    ensures TookSlot(log, m, j)
       <==> TookSlot(log[..|log| - 1], m, j) && !Takes(log[|log| - 1]) && !Frees(log[|log| - 1])
  {
    UntouchedSnoc(log, m + 1);
    assert log[..|log| - 1][m] == log[m];
  }

  lemma HolderTaken(log: seq<Event>, before: Option<JobId>, j: JobId)
    requires log != [] && Takes(log[|log| - 1])
    ensures HoldsSince(log, before, j) <==> log[|log| - 1].job == Some(j)
  {
    var last := |log| - 1;
    UntouchedSnoc(log, 0);
    if log[last].job == Some(j) {
      assert TookSlot(log, last, j);
    } else {
      forall m: nat ensures !TookSlot(log, m, j) {
        if m < last {
          TookSlotSnoc(log, m, j);
        }
      }
    }
  }

  lemma HolderFreed(log: seq<Event>, before: Option<JobId>, j: JobId)
    requires log != [] && Frees(log[|log| - 1]) && !Takes(log[|log| - 1])
    ensures !HoldsSince(log, before, j)
  {
    UntouchedSnoc(log, 0);
    forall m: nat ensures !TookSlot(log, m, j) {
      if m < |log| - 1 {
        TookSlotSnoc(log, m, j);
      }
    }
  }

  lemma HolderKept(log: seq<Event>, before: Option<JobId>, j: JobId)
    requires log != [] && !Frees(log[|log| - 1]) && !Takes(log[|log| - 1])
    ensures HoldsSince(log, before, j) <==> HoldsSince(log[..|log| - 1], before, j)
  {
    var front := log[..|log| - 1];
    UntouchedSnoc(log, 0);
    forall m: nat ensures TookSlot(log, m, j) <==> TookSlot(front, m, j) {
      if m < |front| {
        TookSlotSnoc(log, m, j);
      }
    }
  }

  /** Action `n` is a worker's write that empties the slot, made for job `j`. */
  ghost predicate ReleasesFor(s: System, actions: seq<Action>, n: nat, j: JobId) {
    && n < |actions| && |At(s, actions, n).log| < |Next(At(s, actions, n), actions[n]).log|
    && var e := Next(At(s, actions, n), actions[n]).log[|At(s, actions, n).log|];
      e.actor.ByWorker? && e.job == Some(j) && Frees(e)
  }

  /**
   A worker's release frees the slot of its own job, and so no other job's, exactly when by the history
   the last write that concerned the slot put that job there.
   */
  lemma ReleaseFreesOwnSlotIff(s: System, actions: seq<Action>, n: nat, j: JobId)
    requires Initial(s) && ReleasesFor(s, actions, n, j)
    ensures Next(At(s, actions, n), actions[n]).plan.activeJob == None
    ensures At(s, actions, n).plan.activeJob == Some(j) <==> HoldsSince(At(s, actions, n).log, s.plan.activeJob, j)
  {
    SlotAsLogged(s, actions, n);
    HolderIff(At(s, actions, n).log, s.plan.activeJob, j);
    var r, a := At(s, actions, n), actions[n];
    SlotMoves(r, a);
    AddedAtMostOne(r, a);
    assert Added(r, a) == [Next(r, a).log[|r.log|]];
    HolderOne(Next(r, a).log[|r.log|], r.plan.activeJob);
  }

  // ---- another job's slot freed ---------------------------------------------------------------------

  function OneWorker(): System {
    System(map[0 := NewJob], Plan(Some(0), ExecutionQueued, true, None),
           map[1 := Worker(Some(0), Fresh, false, None, false, None)], map[], 0, 0, 0, [])
  }

  function Cancelling(): seq<Action> { [ClaimUpdate(1, 10, 0), TokenRead(1), OperatorCancel(0), ReadActive(7)] }

  function Replacing(): seq<Action> { [ClearStale(7, 0), ReadActive(7), Enqueue(7, 1)] }

  /** The cancelled job's worker still holds its token; a caller has seen that nothing is active. */
  ghost predicate CancelledRow(s: System) {
    && s.jobs.Keys == {0} && s.jobs[0].status == JobStatus.Cancelled && s.jobs[0].version == 1
    && s.plan.activeJob == Some(0) && Cleared(s, 7)
    && 1 in s.workers && s.workers[1] == Worker(Some(0), Working, true, Some(1), false, Some(1))
  }

  lemma ClaimedAndRead()
    ensures var r := Next(Next(OneWorker(), ClaimUpdate(1, 10, 0)), TokenRead(1));
      && r.jobs.Keys == {0} && r.jobs[0].version == 1 && r.plan.activeJob == Some(0)
      && 1 in r.workers && r.workers[1] == Worker(Some(0), Working, true, Some(1), false, Some(1))
  {
    var s1 := Next(OneWorker(), ClaimUpdate(1, 10, 0));
    assert s1.jobs.Keys == {0} && s1.jobs[0].version == 1;
  }

  lemma CancelledState()
    ensures CancelledRow(Run(OneWorker(), Cancelling()))
  {
    RunOfFour(OneWorker(), ClaimUpdate(1, 10, 0), TokenRead(1), OperatorCancel(0), ReadActive(7));
    ClaimedAndRead();
    CancelAndRead(Next(Next(OneWorker(), ClaimUpdate(1, 10, 0)), TokenRead(1)));
  }

  lemma CancelAndRead(s: System)
    requires s.jobs.Keys == {0} && s.jobs[0].version == 1 && s.plan.activeJob == Some(0)
    requires 1 in s.workers && s.workers[1] == Worker(Some(0), Working, true, Some(1), false, Some(1))
    ensures CancelledRow(Next(Next(s, OperatorCancel(0)), ReadActive(7)))
  {
    var s' := Next(s, OperatorCancel(0));
    assert s'.jobs.Keys == {0} && s'.jobs[0].status == JobStatus.Cancelled && s'.workers == s.workers;
  }

  /** The slot is job 1's now, and the worker of job 0 is as before. */
  ghost predicate ReplacedRow(s: System) {
    && s.jobs.Keys == {0, 1} && s.jobs[0].version == 1 && s.jobs[1].status == Queued && s.plan.activeJob == Some(1)
    && 1 in s.workers && s.workers[1] == Worker(Some(0), Working, true, Some(1), false, Some(1))
  }

  lemma ReplacedState(s: System)
    requires CancelledRow(s)
    ensures ReplacedRow(Next(Next(Next(s, ClearStale(7, 0)), ReadActive(7)), Enqueue(7, 1)))
  {
    SlotCleared(s);
    var s1 := Next(s, ClearStale(7, 0));
    NothingActiveSeen(s1);
    hide Next;
    SecondJobEnqueued(Next(s1, ReadActive(7)));
  }

  lemma SlotCleared(s: System)
    requires Cleared(s, 7) && s.plan.activeJob == Some(0)
    ensures var s' := Next(s, ClearStale(7, 0)); s'.jobs == s.jobs && s'.workers == s.workers && s'.plan.activeJob == None
  {
  }

  lemma NothingActiveSeen(s: System)
    requires s.jobs.Keys == {0} && s.jobs[0].status == JobStatus.Cancelled
    ensures var s' := Next(s, ReadActive(7)); Cleared(s', 7) && s'.jobs == s.jobs && s'.workers == s.workers && s'.plan == s.plan
  {
  }

  lemma SecondJobEnqueued(s: System)
    requires s.jobs.Keys == {0} && s.jobs[0].version == 1 && s.plan.activeJob == None && Cleared(s, 7)
    ensures var s' := Next(s, Enqueue(7, 1));
      && s'.jobs.Keys == {0, 1} && s'.jobs[0].version == 1 && s'.jobs[1].status == Queued
      && s'.plan.activeJob == Some(1) && s'.workers == s.workers
  {
  }

  /**
   After a cancel the slot is cleared and given to job 1; the late reconciliation of job 0's worker
   passes its guard and frees the slot of job 1, which is still queued.
   */
  lemma ReconcileFreesAnothersSlot()
    ensures Initial(OneWorker())
    ensures var r := Run(OneWorker(), Cancelling() + Replacing()); var r' := Next(r, Reconcile(1));
      && r.plan.activeJob == Some(1) && IsActive(r.jobs, 1)
      && r'.plan.activeJob == None && IsActive(r'.jobs, 1)
  {
    CancelledState();
    var c := Run(OneWorker(), Cancelling());
    RunConcat(OneWorker(), Cancelling(), Replacing());
    RunSnoc(c, [], ClearStale(7, 0));
    RunSnoc(c, [ClearStale(7, 0)], ReadActive(7));
    RunSnoc(c, [ClearStale(7, 0), ReadActive(7)], Enqueue(7, 1));
    assert [] + [ClearStale(7, 0)] == [ClearStale(7, 0)];
    ReplacedState(c);
    LateReconcile(Run(OneWorker(), Cancelling() + Replacing()));
  }

  lemma LateReconcile(s: System)
    requires ReplacedRow(s)
    ensures Next(s, Reconcile(1)).plan.activeJob == None && Next(s, Reconcile(1)).jobs == s.jobs
  {
  }

  // ---- a stale clear ----------------------------------------------------------------------------------

  /** The job was activated since the caller's last read, before action `n`, and still stands. */
  ghost predicate StandsSinceRead(s: System, actions: seq<Action>, n: nat, c: CallerId, j: JobId)
    requires n <= |actions|
  {
    exists r: nat :: StandsFrom(s, actions, r, n, c, j)
  }

  ghost predicate StandsFrom(s: System, actions: seq<Action>, r: nat, n: nat, c: CallerId, j: JobId)
    requires n <= |actions|
  {
    ReadLast(actions, r, n, c) && |At(s, actions, r).log| <= |At(s, actions, n).log| && Standing(Since(s, actions, r, n), j, false)
  }

  lemma OneLastRead(actions: seq<Action>, r: nat, r': nat, n: nat, c: CallerId)
    requires ReadLast(actions, r, n, c) && ReadLast(actions, r', n, c)
    ensures r == r'
  {
    assert ActorOf(actions[r]) == ByCaller(c) && ActorOf(actions[r']) == ByCaller(c);
  }

  /**
   A caller that clears the slot of a job it takes for stale frees the slot of an active job exactly when
   the job was activated since the caller last read the table and still stands.
   */
  lemma StaleClearFreesActiveIff(s: System, actions: seq<Action>, n: nat, c: CallerId, j: JobId)
    requires Initial(s) && n < |actions| && actions[n] == ClearStale(c, j)
    requires Cleared(At(s, actions, n), c) && At(s, actions, n).plan.activeJob == Some(j)
    ensures Next(At(s, actions, n), actions[n]).plan.activeJob == None
    ensures IsActive(Next(At(s, actions, n), actions[n]).jobs, j) <==> StandsSinceRead(s, actions, n, c, j)
  {
    assert Next(At(s, actions, n), actions[n]).jobs == At(s, actions, n).jobs;
    var r := ClearedByRead(s, actions, n, c);
    ActiveAsLogged(s, actions, r, n, j);
    assert IsActive(At(s, actions, n).jobs, j) <==> StandsFrom(s, actions, r, n, c, j);
    forall r': nat | StandsFrom(s, actions, r', n, c, j) ensures r' == r {
      OneLastRead(actions, r, r', n, c);
    }
  }

  /** A queued job holds the slot and is cancelled; the caller reads that nothing is active. */
  function QueuedRow(): System {
    System(map[0 := NewJob], Plan(Some(0), ExecutionQueued, true, None), map[], map[], 0, 0, 0, [])
  }

  function Revived(): System { Next(Next(Next(QueuedRow(), OperatorCancel(0)), ReadActive(7)), OperatorRetry(0)) }

  lemma RevivedHoldsTheSlot()
    ensures Cleared(Revived(), 7) && Revived().plan.activeJob == Some(0)
    ensures Revived().jobs.Keys == {0} && Revived().jobs[0].status == Queued
  {
    var s1 := Next(QueuedRow(), OperatorCancel(0));
    assert s1.jobs.Keys == {0} && s1.jobs[0].status == JobStatus.Cancelled && s1.plan == QueuedRow().plan;
    NothingActiveSeen(s1);
    Retried(Next(s1, ReadActive(7)));
    hide Next;
  }

  lemma Retried(s: System)
    requires s.jobs.Keys == {0}
    ensures var s' := Next(s, OperatorRetry(0));
      s'.jobs.Keys == {0} && s'.jobs[0].status == Queued && s'.plan == s.plan && s'.callers == s.callers
  {
  }

  /** A retry between the read and the clear: the slot of the job, queued again, is freed. */
  lemma StaleClearFreesRetriedJob()
    ensures Initial(QueuedRow())
    ensures Revived().plan.activeJob == Some(0) && IsActive(Revived().jobs, 0)
    ensures var r := Next(Revived(), ClearStale(7, 0)); r.plan.activeJob == None && IsActive(r.jobs, 0)
  {
    hide Revived;
    RevivedHoldsTheSlot();
  }
}
