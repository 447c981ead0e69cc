/** Which schedules of claims and token reads give every worker a token of its own. */
module JobTokens {
  import opened Wrappers
  import opened JobFrames
  import opened JobProtocol
  import opened JobSafety
  import opened JobTheorems

  // ---- steps ---------------------------------------------------------------------------------------

  /** The claim UPDATE of this step matches the row of job `j`. */
  predicate Claims(s: System, a: Action, j: JobId) {
    && a.ClaimUpdate? && a.worker in s.workers
    && s.workers[a.worker].phase == Fresh && s.workers[a.worker].job == Some(j)
    && j in s.jobs && Claimable(s.jobs[j], a.staleBefore)
  }

  /** This step is the token SELECT of a worker that has claimed. */
  predicate Reads(s: System, a: Action, id: WorkerId) {
    && a == TokenRead(id) && id in s.workers && s.workers[id].phase == AwaitingToken
    && s.workers[id].job.Some? && s.workers[id].job.value in s.jobs
  }

  /** Only a claim moves the version of a job. */
  lemma VersionMoves(s: System, a: Action, j: JobId)
    requires j in s.jobs
    ensures j in Next(s, a).jobs
    ensures Next(s, a).jobs[j].version == s.jobs[j].version + if Claims(s, a, j) then 1 else 0
  {
    if ActorOf(a).ByWorker? && a.worker in s.workers {
      if IsGuarded(a) {
        WorkerFrame(s, a);
        hide WorkerStep;
      } else {
        VersionAfterStep(s, a, j);
        hide WorkerStep;
      }
    }
  }

  lemma VersionAfterStep(s: System, a: Action, j: JobId)
    requires ActorOf(a).ByWorker? && a.worker in s.workers && !IsGuarded(a) && j in s.jobs
    ensures j in WorkerStep(s, a).jobs
    ensures WorkerStep(s, a).jobs[j].version == s.jobs[j].version + if Claims(s, a, j) then 1 else 0
  {
    hide Released, Current;
    match a
    case ClaimUpdate(_, _, _) =>
    case Finish(_, _, _) =>
    case FailUnclaimed(_, _, _) =>
    case Heartbeat(_, _) =>
    case _ =>
  }

  lemma OwnTokenMoves(s: System, id: WorkerId)
    requires Inv(s) && id in s.workers
    ensures Next(s, TokenRead(id)).workers[id].token
         == if Reads(s, TokenRead(id), id) then Some(s.jobs[s.workers[id].job.value].version) else s.workers[id].token
  {
    assert WorkerSound(s.workers[id], s.jobs);
  }

  /** Only its own effective read moves a worker's token. */
  lemma TokenMoves(s: System, a: Action, id: WorkerId)
    requires Inv(s) && id in s.workers
    ensures id in Next(s, a).workers && Next(s, a).workers[id].job == s.workers[id].job
    ensures Next(s, a).workers[id].token
         == if Reads(s, a, id) then Some(s.jobs[s.workers[id].job.value].version) else s.workers[id].token
  {
    WorkerIdentityStays(s, a, id);
    if a == TokenRead(id) {
      OwnTokenMoves(s, id);
    }
  }

  /** This step is the worker's own claim, and its UPDATE matches. */
  predicate OwnClaim(s: System, a: Action, id: WorkerId) {
    && id in s.workers && s.workers[id].job.Some?
    && a.ClaimUpdate? && a.worker == id && Claims(s, a, s.workers[id].job.value)
  }

  /** What was won stays, and a worker that has left its first phase never returns to it. */
  predicate SameWon(w: Worker, w': Worker) { w'.won == w.won && (w.phase != Fresh ==> w'.phase != Fresh) }

  lemma GuardedKeepsWon(s: System, a: Action, id: WorkerId)
    requires Inv(s) && id in s.workers && ActorOf(a).ByWorker? && a.worker in s.workers && IsGuarded(a)
    ensures id in Next(s, a).workers && SameWon(s.workers[id], Next(s, a).workers[id])
  {
    var w := s.workers[a.worker];
    GuardedIdentity(s, a.worker, !a.Reconcile?, PlanAfter(s, w, a), KindOf(a));
    GuardFacts(s.jobs, w, !a.Reconcile?);
  }

  lemma ClaimWins(s: System, a: Action, id: WorkerId)
    requires id in s.workers && a.ClaimUpdate? && a.worker in s.workers
    ensures id in Next(s, a).workers
    ensures var w, w' := s.workers[id], Next(s, a).workers[id];
      if OwnClaim(s, a, id) then w'.won == Some(s.jobs[w.job.value].version + 1) && w'.phase == AwaitingToken else SameWon(w, w')
  {
  }

  lemma OthersKeepWon(s: System, a: Action, id: WorkerId)
    requires id in s.workers && !a.ClaimUpdate? && !IsGuarded(a)
    ensures id in Next(s, a).workers && SameWon(s.workers[id], Next(s, a).workers[id])
  {
  }

  /** Only its own effective claim moves the version a worker has won. */
  lemma WonMoves(s: System, a: Action, id: WorkerId)
    requires Inv(s) && id in s.workers
    ensures id in Next(s, a).workers
    ensures var w, w' := s.workers[id], Next(s, a).workers[id];
      if OwnClaim(s, a, id) then w'.won == Some(s.jobs[w.job.value].version + 1) && w'.phase == AwaitingToken else SameWon(w, w')
  {
    if a.ClaimUpdate? && a.worker in s.workers {
      ClaimWins(s, a, id);
    } else if IsGuarded(a) && a.worker in s.workers {
      GuardedKeepsWon(s, a, id);
    } else if !a.ClaimUpdate? && !IsGuarded(a) {
      OthersKeepWon(s, a, id);
    }
  }

  // ---- runs ----------------------------------------------------------------------------------------

  /** The state before action `n`. */
  function At(s: System, actions: seq<Action>, n: nat): System
    requires n <= |actions|
  {
    Run(s, actions[..n])
  }

  lemma NothingAtStart(s: System, actions: seq<Action>, id: WorkerId)
    requires Initial(s) && id in At(s, actions, 0).workers
    ensures At(s, actions, 0).workers[id].token.None? && At(s, actions, 0).workers[id].won.None?
  {
    assert actions[..0] == [];
  }

  lemma AtNext(s: System, actions: seq<Action>, n: nat)
    requires n < |actions|
    ensures At(s, actions, n + 1) == Next(At(s, actions, n), actions[n])
  {
    assert actions[..n + 1] == actions[..n] + [actions[n]];
    RunSnoc(s, actions[..n], actions[n]);
  }

  lemma AtKeeps(s: System, actions: seq<Action>, n: nat)
    requires Inv(s) && n <= |actions|
    ensures Inv(At(s, actions, n))
  {
    RunKeeps(s, actions[..n]);
  }

  ghost predicate ClaimedAt(s: System, actions: seq<Action>, m: nat, j: JobId) {
    m < |actions| && Claims(At(s, actions, m), actions[m], j)
  }

  /** Some worker's claim of job `j` falls on an action from `i` on, before `k`. */
  ghost predicate ClaimedWithin(s: System, actions: seq<Action>, i: nat, k: nat, j: JobId) {
    exists m: nat | i <= m < k :: ClaimedAt(s, actions, m, j)
  }

  lemma ClaimedSnoc(s: System, actions: seq<Action>, i: nat, k: nat, j: JobId)
    requires i <= k < |actions|
    ensures ClaimedWithin(s, actions, i, k + 1, j)
       <==> ClaimedWithin(s, actions, i, k, j) || ClaimedAt(s, actions, k, j)
  {
  }

  /** Between two states the version of a job stays the same exactly when no claim of it falls between them. */
  lemma {:induction false} VersionStaysIff(s: System, actions: seq<Action>, i: nat, k: nat, j: JobId)
    requires i <= k <= |actions| && j in At(s, actions, i).jobs
    ensures j in At(s, actions, k).jobs
    ensures At(s, actions, i).jobs[j].version <= At(s, actions, k).jobs[j].version
    ensures At(s, actions, i).jobs[j].version == At(s, actions, k).jobs[j].version <==> !ClaimedWithin(s, actions, i, k, j)
    decreases k - i
  {
    hide Next, Claims;
    if i < k {
      VersionStaysIff(s, actions, i, k - 1, j);
      AtNext(s, actions, k - 1);
      VersionMoves(At(s, actions, k - 1), actions[k - 1], j);
      ClaimedSnoc(s, actions, i, k - 1, j);
    }
  }

  lemma {:induction false} WorkerStays(s: System, actions: seq<Action>, n: nat, id: WorkerId)
    requires Inv(s) && n <= |actions|
    ensures id in At(s, actions, n).workers <==> id in s.workers
    ensures id in s.workers ==> At(s, actions, n).workers[id].job == s.workers[id].job
  {
    if n > 0 {
      WorkerStays(s, actions, n - 1, id);
      AtNext(s, actions, n - 1);
      AtKeeps(s, actions, n - 1);
      WorkersStayRegistered(At(s, actions, n - 1), actions[n - 1]);
      if id in s.workers {
        TokenMoves(At(s, actions, n - 1), actions[n - 1], id);
      }
    }
  }

  /** One step of the run, as it concerns worker `id`. */
  lemma StepOfWorker(s: System, actions: seq<Action>, n: nat, id: WorkerId)
    requires Inv(s) && n < |actions| && id in s.workers
    ensures var r, r' := At(s, actions, n), At(s, actions, n + 1);
      && r' == Next(r, actions[n]) && Inv(r) && id in r.workers && id in r'.workers
      && r.workers[id].job == r'.workers[id].job == s.workers[id].job
  {
    AtNext(s, actions, n);
    AtKeeps(s, actions, n);
    WorkerStays(s, actions, n, id);
    WorkerStays(s, actions, n + 1, id);
  }

  /** Action `k` is the effective token read of worker `id`. */
  ghost predicate ReadAt(s: System, actions: seq<Action>, k: nat, id: WorkerId) {
    k < |actions| && Reads(At(s, actions, k), actions[k], id)
  }

  /** Action `i` is the effective claim of worker `id`. */
  ghost predicate ClaimAt(s: System, actions: seq<Action>, i: nat, id: WorkerId) {
    && i < |actions| && id in s.workers && s.workers[id].job.Some?
    && actions[i].ClaimUpdate? && actions[i].worker == id && ClaimedAt(s, actions, i, s.workers[id].job.value)
  }

  function JobOf(s: System, id: WorkerId): Option<JobId> {
    if id in s.workers then s.workers[id].job else None
  }

  /** The version stored for a job before action `k`. */
  function VersionAt(s: System, actions: seq<Action>, k: nat, j: JobId): nat
    requires k <= |actions|
  {
    VersionOf(At(s, actions, k).jobs, Some(j))
  }

  lemma ReaderIsRegistered(s: System, actions: seq<Action>, k: nat, id: WorkerId)
    requires Inv(s) && ReadAt(s, actions, k, id)
    ensures id in s.workers && s.workers[id].job.Some? && s.workers[id].job.value in At(s, actions, k).jobs
  {
    WorkerStays(s, actions, k, id);
  }

  /** A token once read is kept. */
  lemma {:induction false} ReadSticks(s: System, actions: seq<Action>, k: nat, n: nat, id: WorkerId)
    requires Inv(s) && k < n <= |actions| && ReadAt(s, actions, k, id)
    ensures id in s.workers && s.workers[id].job.Some? && id in At(s, actions, n).workers
    ensures At(s, actions, n).workers[id].token == Some(VersionAt(s, actions, k, s.workers[id].job.value))
    ensures n > k + 1 ==> !ReadAt(s, actions, n - 1, id)
  {
    hide Next, LogSound, WonDistinct;
    ReaderIsRegistered(s, actions, k, id);
    WorkerStays(s, actions, k, id);
    StepOfWorker(s, actions, n - 1, id);
    TokenMoves(At(s, actions, n - 1), actions[n - 1], id);
    if n > k + 1 {
      ReadSticks(s, actions, k, n - 1, id);
      assert WorkerSound(At(s, actions, n - 1).workers[id], At(s, actions, n - 1).jobs);
    }
  }

  lemma InitialIsSound(s: System)
    requires Initial(s)
    ensures Inv(s)
  {
  }

  /** Every held token was read. */
  lemma {:induction false} TokenWasRead(s: System, actions: seq<Action>, n: nat, id: WorkerId) returns (k: nat)
    requires Initial(s) && n <= |actions| && id in At(s, actions, n).workers && At(s, actions, n).workers[id].token.Some?
    ensures k < n && ReadAt(s, actions, k, id) && id in s.workers && s.workers[id].job.Some?
    ensures At(s, actions, n).workers[id].token == Some(VersionAt(s, actions, k, s.workers[id].job.value))
  {
    InitialIsSound(s);
    if n == 0 {
      NothingAtStart(s, actions, id);
      assert false;
    }
    WorkerStays(s, actions, n, id);
    StepOfWorker(s, actions, n - 1, id);
    TokenMoves(At(s, actions, n - 1), actions[n - 1], id);
    if ReadAt(s, actions, n - 1, id) {
      k := n - 1;
    } else {
      k := TokenWasRead(s, actions, n - 1, id);
    }
  }

  // ---- unique tokens -------------------------------------------------------------------------------

  ghost predicate DistinctTokens(s: System) {
    forall a <- s.workers, b <- s.workers ::
      a != b && s.workers[a].job == s.workers[b].job && s.workers[a].token.Some? ==> s.workers[a].token != s.workers[b].token
  }

  /** In no state of the run do two workers of a job hold the same token. */
  ghost predicate DistinctThroughout(s: System, actions: seq<Action>) {
    forall n | 0 <= n <= |actions| :: DistinctTokens(At(s, actions, n))
  }

  /** Between the token reads of two workers of one job there is a claim of that job. */
  ghost predicate ClaimsBetweenReads(s: System, actions: seq<Action>) {
    forall i: nat, k: nat, a, b | i < k && a != b && ReadAt(s, actions, i, a) && ReadAt(s, actions, k, b) ::
      JobOf(s, a) == JobOf(s, b) && JobOf(s, a).Some? ==> ClaimedWithin(s, actions, i + 1, k, JobOf(s, a).value)
  }

  /** A read is no claim. */
  lemma AfterTheRead(s: System, actions: seq<Action>, i: nat, k: nat, id: WorkerId, j: JobId)
    requires i < k && ReadAt(s, actions, i, id)
    ensures ClaimedWithin(s, actions, i, k, j) <==> ClaimedWithin(s, actions, i + 1, k, j)
  {
  }

  /** Two reads find the same version exactly when no claim falls between them. */
  lemma ReadsAgreeIff(s: System, actions: seq<Action>, i: nat, k: nat, a: WorkerId, b: WorkerId)
    requires Inv(s) && i < k && ReadAt(s, actions, i, a) && ReadAt(s, actions, k, b)
    requires JobOf(s, a) == JobOf(s, b) && JobOf(s, a).Some?
    ensures var j := JobOf(s, a).value;
      VersionAt(s, actions, i, j) == VersionAt(s, actions, k, j) <==> !ClaimedWithin(s, actions, i + 1, k, j)
  {
    var j := JobOf(s, a).value;
    ReaderIsRegistered(s, actions, i, a);
    VersionStaysIff(s, actions, i, k, j);
    AfterTheRead(s, actions, i, k, a, j);
  }

  lemma SharedTokenWithoutClaim(s: System, actions: seq<Action>, n: nat, a: WorkerId, b: WorkerId)
    requires Initial(s) && n <= |actions| && ClaimsBetweenReads(s, actions) && a != b
    requires var r := At(s, actions, n);
      a in r.workers && b in r.workers && r.workers[a].job == r.workers[b].job && r.workers[a].token.Some?
    ensures At(s, actions, n).workers[a].token != At(s, actions, n).workers[b].token
  {
    InitialIsSound(s);
    WorkerStays(s, actions, n, a);
    WorkerStays(s, actions, n, b);
    if At(s, actions, n).workers[b].token.Some? {
      var i := TokenWasRead(s, actions, n, a);
      var k := TokenWasRead(s, actions, n, b);
      if i < k {
        ReadsAgreeIff(s, actions, i, k, a, b);
      } else if k < i {
        ReadsAgreeIff(s, actions, k, i, b, a);
      }
    }
  }

  lemma DistinctAt(s: System, actions: seq<Action>, n: nat)
    requires Initial(s) && n <= |actions| && ClaimsBetweenReads(s, actions)
    ensures DistinctTokens(At(s, actions, n))
  {
    var r := At(s, actions, n);
    forall a, b | a in r.workers && b in r.workers && a != b && r.workers[a].job == r.workers[b].job && r.workers[a].token.Some?
      ensures r.workers[a].token != r.workers[b].token
    {
      SharedTokenWithoutClaim(s, actions, n, a, b);
    }
  }

  lemma SharedAfterReads(s: System, actions: seq<Action>, i: nat, k: nat, a: WorkerId, b: WorkerId)
    requires Inv(s) && i < k < |actions| && a != b && ReadAt(s, actions, i, a) && ReadAt(s, actions, k, b)
    requires JobOf(s, a) == JobOf(s, b) && JobOf(s, a).Some? && !ClaimedWithin(s, actions, i + 1, k, JobOf(s, a).value)
    ensures !DistinctTokens(At(s, actions, k + 1))
  {
    hide Next, Reads, ClaimedWithin;
    ReadsAgreeIff(s, actions, i, k, a, b);
    ReadSticks(s, actions, i, k + 1, a);
    ReadSticks(s, actions, k, k + 1, b);
    WorkerStays(s, actions, k + 1, a);
    WorkerStays(s, actions, k + 1, b);
  }

  /**
   No two workers of a job ever hold the same token exactly when between any two of their token reads
   some worker claims the job.
   */
  lemma TokensAreUniqueIff(s: System, actions: seq<Action>)
    requires Initial(s)
    ensures DistinctThroughout(s, actions) <==> ClaimsBetweenReads(s, actions)
  {
    InitialIsSound(s);
    if ClaimsBetweenReads(s, actions) {
      forall n | 0 <= n <= |actions| ensures DistinctTokens(At(s, actions, n)) {
        DistinctAt(s, actions, n);
      }
    } else {
      var i: nat, k: nat, a, b :| i < k && a != b && ReadAt(s, actions, i, a) && ReadAt(s, actions, k, b)
        && JobOf(s, a) == JobOf(s, b) && JobOf(s, a).Some? && !ClaimedWithin(s, actions, i + 1, k, JobOf(s, a).value);
      SharedAfterReads(s, actions, i, k, a, b);
    }
  }

  // ---- a worker's own token ------------------------------------------------------------------------

  lemma ClaimStarts(s: System, actions: seq<Action>, i: nat, id: WorkerId)
    requires Inv(s) && ClaimAt(s, actions, i, id)
    ensures id in At(s, actions, i + 1).workers && At(s, actions, i + 1).workers[id].phase != Fresh
    ensures At(s, actions, i + 1).workers[id].won == Some(VersionAt(s, actions, i, s.workers[id].job.value) + 1)
  {
    StepOfWorker(s, actions, i, id);
    WonMoves(At(s, actions, i), actions[i], id);
  }

  lemma WonStays(s: System, actions: seq<Action>, n: nat, id: WorkerId)
    requires Inv(s) && n < |actions| && id in At(s, actions, n).workers && At(s, actions, n).workers[id].phase != Fresh
    ensures id in At(s, actions, n + 1).workers && At(s, actions, n + 1).workers[id].phase != Fresh
    ensures At(s, actions, n + 1).workers[id].won == At(s, actions, n).workers[id].won
  {
    WorkerStays(s, actions, n, id);
    StepOfWorker(s, actions, n, id);
    WonMoves(At(s, actions, n), actions[n], id);
  }

  /** A claim is made once, and what it won is kept. */
  lemma {:induction false} ClaimSticks(s: System, actions: seq<Action>, i: nat, n: nat, id: WorkerId)
    requires Inv(s) && i < n <= |actions| && ClaimAt(s, actions, i, id)
    ensures id in At(s, actions, n).workers && At(s, actions, n).workers[id].phase != Fresh
    ensures At(s, actions, n).workers[id].won == Some(VersionAt(s, actions, i, s.workers[id].job.value) + 1)
  {
    if n == i + 1 {
      ClaimStarts(s, actions, i, id);
    } else {
      ClaimSticks(s, actions, i, n - 1, id);
      WonStays(s, actions, n - 1, id);
    }
  }

  /** What was won was claimed. */
  lemma {:induction false} WonWasClaimed(s: System, actions: seq<Action>, n: nat, id: WorkerId) returns (i: nat)
    requires Initial(s) && n <= |actions| && id in At(s, actions, n).workers && At(s, actions, n).workers[id].won.Some?
    ensures i < n && ClaimAt(s, actions, i, id)
  {
    InitialIsSound(s);
    if n == 0 {
      NothingAtStart(s, actions, id);
      assert false;
    }
    WorkerStays(s, actions, n, id);
    StepOfWorker(s, actions, n - 1, id);
    WonMoves(At(s, actions, n - 1), actions[n - 1], id);
    if ClaimAt(s, actions, n - 1, id) {
      i := n - 1;
    } else {
      i := WonWasClaimed(s, actions, n - 1, id);
    }
  }

  /** Between a worker's claim and its token read nobody claims the job. */
  ghost predicate NoClaimBeforeRead(s: System, actions: seq<Action>) {
    forall i: nat, k: nat, id | i < k && ClaimAt(s, actions, i, id) && ReadAt(s, actions, k, id) ::
      !ClaimedWithin(s, actions, i + 1, k, s.workers[id].job.value)
  }

  lemma PromptIff(s: System, actions: seq<Action>, i: nat, k: nat, id: WorkerId)
    requires Inv(s) && i < k && ClaimAt(s, actions, i, id) && ReadAt(s, actions, k, id)
    ensures PromptRead(At(s, actions, k), actions[k]) <==> !ClaimedWithin(s, actions, i + 1, k, s.workers[id].job.value)
  {
    var j := s.workers[id].job.value;
    WorkerStays(s, actions, k, id);
    ClaimSticks(s, actions, i, k, id);
    AtNext(s, actions, i);
    VersionMoves(At(s, actions, i), actions[i], j);
    VersionStaysIff(s, actions, i + 1, k, j);
  }

  ghost predicate PromptAt(s: System, actions: seq<Action>, k: nat) {
    k < |actions| ==> PromptRead(At(s, actions, k), actions[k])
  }

  lemma {:induction false} PromptEverywhere(s: System, actions: seq<Action>, n: nat)
    requires n <= |actions|
    ensures PromptReads(s, actions[..n]) <==> forall k: nat | k < n :: PromptAt(s, actions, k)
  {
    if n > 0 {
      PromptEverywhere(s, actions, n - 1);
      assert actions[..n][..n - 1] == actions[..n - 1];
      assert PromptReads(s, actions[..n]) <==> PromptReads(s, actions[..n - 1]) && PromptAt(s, actions, n - 1);
    }
  }

  lemma AwaitedRead(s: System, actions: seq<Action>, k: nat)
    requires Initial(s) && NoClaimBeforeRead(s, actions) && k < |actions|
    ensures PromptAt(s, actions, k)
  {
    InitialIsSound(s);
    var r, a := At(s, actions, k), actions[k];
    AtKeeps(s, actions, k);
    if a.TokenRead? && a.worker in r.workers && r.workers[a.worker].phase == AwaitingToken {
      assert WorkerSound(r.workers[a.worker], r.jobs);
      assert ReadAt(s, actions, k, a.worker);
      var i := WonWasClaimed(s, actions, k, a.worker);
      PromptIff(s, actions, i, k, a.worker);
    }
  }

  /** Reads are prompt exactly when no claim of the job falls between a worker's claim and its read. */
  lemma PromptReadsIff(s: System, actions: seq<Action>)
    requires Initial(s)
    ensures PromptReads(s, actions) <==> NoClaimBeforeRead(s, actions)
  {
    InitialIsSound(s);
    assert actions[..|actions|] == actions;
    PromptEverywhere(s, actions, |actions|);
    if NoClaimBeforeRead(s, actions) {
      forall k: nat | k < |actions| ensures PromptAt(s, actions, k) {
        AwaitedRead(s, actions, k);
      }
    } else {
      var i: nat, k: nat, id :| i < k && ClaimAt(s, actions, i, id) && ReadAt(s, actions, k, id)
        && ClaimedWithin(s, actions, i + 1, k, s.workers[id].job.value);
      PromptIff(s, actions, i, k, id);
      assert !PromptAt(s, actions, k);
    }
  }

  /**
   Throughout a run every held token is the version its holder's own claim wrote exactly when no claim
   of the job falls between any worker's claim and its token read.
   */
  lemma TokensFaithfulIff(s: System, actions: seq<Action>)
    requires Initial(s)
    ensures FaithfulThroughout(s, actions) <==> NoClaimBeforeRead(s, actions)
  {
    FaithfulIffPrompt(s, actions);
    PromptReadsIff(s, actions);
  }

  lemma ReaderClaimed(s: System, actions: seq<Action>, k: nat, id: WorkerId) returns (i: nat)
    requires Initial(s) && ReadAt(s, actions, k, id)
    ensures i < k && ClaimAt(s, actions, i, id)
  {
    InitialIsSound(s);
    AtKeeps(s, actions, k);
    assert WorkerSound(At(s, actions, k).workers[id], At(s, actions, k).jobs);
    i := WonWasClaimed(s, actions, k, id);
  }

  /** Tokens of one's own are unique. */
  lemma OwnTokensAreUnique(s: System, actions: seq<Action>)
    requires Initial(s) && NoClaimBeforeRead(s, actions)
    ensures ClaimsBetweenReads(s, actions)
  {
    forall i: nat, k: nat, a, b | i < k && a != b && ReadAt(s, actions, i, a) && ReadAt(s, actions, k, b)
                                  && JobOf(s, a) == JobOf(s, b) && JobOf(s, a).Some?
      ensures ClaimedWithin(s, actions, i + 1, k, JobOf(s, a).value)
    {
      var first := ReaderClaimed(s, actions, i, a);
      var second := ReaderClaimed(s, actions, k, b);
      var j := JobOf(s, a).value;
      assert ClaimedAt(s, actions, first, j) && ClaimedAt(s, actions, second, j);
      assert !ClaimedWithin(s, actions, first + 1, i, j) && !ClaimedWithin(s, actions, second + 1, k, j);
    }
  }

  /** One read meets no other. */
  lemma LoneReadIsUnique(s: System, claims: seq<Action>, id: WorkerId)
    requires forall a <- claims :: !a.TokenRead?
    ensures ClaimsBetweenReads(s, claims + [TokenRead(id)])
  {
    var run := claims + [TokenRead(id)];
    forall i: nat, b | i < |claims| ensures !ReadAt(s, run, i, b) {
      assert run[i] == claims[i] && claims[i] in claims;
    }
  }

  lemma LastReadIsLate(s: System, claims: seq<Action>, id: WorkerId)
    requires Initial(s) && !PromptRead(Run(s, claims), TokenRead(id))
    ensures !NoClaimBeforeRead(s, claims + [TokenRead(id)])
  {
    var run := claims + [TokenRead(id)];
    assert run[..|run| - 1] == claims;
    PromptReadsIff(s, run);
  }

  /** The converse fails: worker 1 reads late, and worker 2, whose version it reads, never reads at all. */
  lemma UniqueThoughLate()
    ensures Initial(TwoWorkers())
    ensures var run := LateClaims() + [TokenRead(1)];
      ClaimsBetweenReads(TwoWorkers(), run) && !NoClaimBeforeRead(TwoWorkers(), run)
  {
    LateClaimStates();
    LoneReadIsUnique(TwoWorkers(), LateClaims(), 1);
    LastReadIsLate(TwoWorkers(), LateClaims(), 1);
  }
}
