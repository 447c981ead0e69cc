/** `queue_visual_composition` as a method over the shared database. */
module JobQueue {
  import opened Wrappers
  import opened JobFrames
  import opened JobProtocol
  import opened JobTheorems
  import opened QueueTheorems
  import opened JobExecutor

  datatype QueueOutcome = Enqueueing(job: JobId) | Busy(job: JobId) | Cached | Refused

  lemma {:induction false} OthersKeepMyRead(s: System, before: seq<Action>, after: seq<Action>, c: CallerId)
    requires before <= after
    requires forall i | |before| <= i < |after| :: ActorOf(after[i]) != ByCaller(c)
    ensures Cleared(Run(s, after), c) == Cleared(Run(s, before), c)
  {
    if before != after {
      OthersKeepMyRead(s, before, after[..|after| - 1], c);
      OneStepKeepsMyRead(Run(s, after[..|after| - 1]), after[|after| - 1], c);
    }
  }

  lemma OneStepKeepsMyRead(s: System, a: Action, c: CallerId)
    requires ActorOf(a) != ByCaller(c)
    ensures Cleared(Next(s, a), c) == Cleared(s, c)
  {
    if ActorOf(a).ByWorker? && a.worker in s.workers {
      WorkersLeaveCallers(s, a);
    }
  }

  lemma WorkersLeaveCallers(s: System, a: Action)
    requires ActorOf(a).ByWorker? && a.worker in s.workers
    ensures WorkerStep(s, a).callers == s.callers
  {
    hide WorkerStep;
    WorkerFrame(s, a);
  }

  /** The jobs this caller has added so far in the history. */
  function AddedBy(log: seq<Event>, c: CallerId): seq<JobId> {
    if log == [] then []
    else
      var e := log[|log| - 1];
      AddedBy(log[..|log| - 1], c)
        + if e.actor == ByCaller(c) && e.kind.Enqueued? && e.job.Some? then [e.job.value] else []
  }

  lemma {:induction false} OthersAddNothingForMe(s: System, before: seq<Action>, after: seq<Action>, c: CallerId)
    requires before <= after
    requires forall i | |before| <= i < |after| :: ActorOf(after[i]) != ByCaller(c)
    ensures AddedBy(Run(s, after).log, c) == AddedBy(Run(s, before).log, c)
  {
    if before != after {
      var front := after[..|after| - 1];
      OthersAddNothingForMe(s, before, front, c);
      OthersAddNone(Run(s, front), after[|after| - 1], c);
    }
  }

  lemma OthersAddNone(s: System, a: Action, c: CallerId)
    requires ActorOf(a) != ByCaller(c)
    ensures AddedBy(Next(s, a).log, c) == AddedBy(s.log, c)
  {
    NewEventsAreTheActors(s, a);
    AddedUnlessMine(s.log, Next(s, a).log, c);
  }

  lemma AddedUnlessMine(before: seq<Event>, after: seq<Event>, c: CallerId)
    requires before <= after && |after| <= |before| + 1
    requires |after| > |before| ==> after[|before|].actor != ByCaller(c)
    ensures AddedBy(after, c) == AddedBy(before, c)
  {
    if |after| > |before| {
      AddedSnoc(before, after, c);
    } else {
      assert before == after;
    }
  }

  lemma AddedByStep(s: System, a: Action, c: CallerId)
    requires ActorOf(a) == ByCaller(c)
    ensures AddedBy(Next(s, a).log, c) == AddedBy(s.log, c)
              + if a.Enqueue? && Activated(s, a).Some? then [a.job] else []
  {
    NewEventsAreTheActors(s, a);
    CallerEvents(s, a);
    if |Next(s, a).log| > |s.log| {
      AddedSnoc(s.log, Next(s, a).log, c);
    }
  }

  lemma AddedSnoc(before: seq<Event>, after: seq<Event>, c: CallerId)
    requires before <= after && |after| == |before| + 1
    ensures var e := after[|before|];
      AddedBy(after, c) == AddedBy(before, c)
        + if e.actor == ByCaller(c) && e.kind.Enqueued? && e.job.Some? then [e.job.value] else []
  {
    assert after[..|before|] == before;
  }

  lemma CallerEvents(s: System, a: Action)
    requires ActorOf(a).ByCaller?
    ensures var log := Next(s, a).log;
      if |log| > |s.log| && log[|s.log|].kind.Enqueued?
      then a.Enqueue? && log[|s.log|].job == Some(a.job) == Activated(s, a)
      else !a.Enqueue? || Activated(s, a).None?
  {
  }

  predicate IsTry(a: Action, c: CallerId) { ActorOf(a) == ByCaller(c) && (a.ClearStale? || a.Enqueue?) }

  /** How often caller `c` has tried to clear a stale claim or to enqueue. */
  function TriesIn(run: seq<Action>, c: CallerId): nat {
    if run == [] then 0
    else TriesIn(run[..|run| - 1], c) + if IsTry(run[|run| - 1], c) then 1 else 0
  }

  lemma {:induction false} OthersTryNothingForMe(before: seq<Action>, after: seq<Action>, c: CallerId)
    requires before <= after
    requires forall i | |before| <= i < |after| :: ActorOf(after[i]) != ByCaller(c)
    ensures TriesIn(after, c) == TriesIn(before, c)
  {
    if before != after {
      OthersTryNothingForMe(before, after[..|after| - 1], c);
    }
  }

  lemma TriesSnoc(run: seq<Action>, a: Action, c: CallerId)
    ensures TriesIn(run + [a], c) == TriesIn(run, c) + if IsTry(a, c) then 1 else 0
  {
    assert (run + [a])[..|run|] == run;
  }

  class QueueCaller {
    const db: Database
    ghost const id: CallerId

    constructor (db: Database, ghost id: CallerId)
      ensures this.db == db && this.id == id
    {
      this.db, this.id := db, id;
    }

    /** Everything this caller has ever committed to the queue. */
    ghost function Added(): seq<JobId> reads db {
      AddedBy(db.model.log, id)
    }

    /** How often this caller has tried to clear a stale claim or to enqueue. */
    ghost function Tries(): nat reads db {
      TriesIn(db.run, id)
    }

    method Interleave()
      requires db.Valid()
      modifies db
      ensures db.Valid() && Added() == old(Added()) && Tries() == old(Tries()) && old(db.jobs).Keys <= db.jobs.Keys
      ensures Cleared(db.model, id) == old(Cleared(db.model, id))
    {
      db.Interleave(ByCaller(id));
      OthersKeepMyRead(db.initial, old(db.run), db.run, id);
      OthersAddNothingForMe(db.initial, old(db.run), db.run, id);
      OthersTryNothingForMe(old(db.run), db.run, id);
      RunKeeps(db.initial, old(db.run));
      JobsPersist(db.initial, old(db.run), db.run);
    }

    /** `_active_job`: some QUEUED or RUNNING job, or none in the whole table. */
    method ActiveJob() returns (active: Option<JobId>)
      requires db.Valid()
      modifies db`run, db`model
      ensures db.Valid() && Added() == old(Added()) && Tries() == old(Tries())
      ensures active.Some? ==> active.value in db.jobs && Active(db.jobs[active.value])
      ensures Cleared(db.model, id) == active.None?
    {
      AddedByStep(db.model, ReadActive(id), id);
      TriesSnoc(db.run, ReadActive(id), id);
      db.Commit(ReadActive(id));
      if exists j <- db.jobs :: Active(db.jobs[j]) {
        var j :| j in db.jobs && Active(db.jobs[j]);
        return Some(j);
      }
      return None;
    }

    /** Insert the job and compare-and-swap the slot: commit both, or roll both back. */
    method InsertAndClaim(job: JobId) returns (won: bool)
      requires db.Valid() && Cleared(db.model, id)
      modifies db
      ensures db.Valid() && won == (job !in old(db.jobs) && old(db.plan).activeJob.None?)
      ensures Added() == old(Added()) + if won then [job] else []
      ensures Tries() == old(Tries()) + 1
      ensures db.jobs == if won then old(db.jobs)[job := NewJob] else old(db.jobs)
      ensures db.plan == if won then old(db.plan).(activeJob := Some(job)) else old(db.plan)
    {
      won := job !in db.jobs && db.plan.activeJob.None?;
      if won {
        db.jobs := db.jobs[job := NewJob];
        db.plan := db.plan.(activeJob := Some(job));
      }
      AddedByStep(db.model, Enqueue(id, job), id);
      TriesSnoc(db.run, Enqueue(id, job), id);
      db.Commit(Enqueue(id, job));
    }

    /** `_clear_stale_claim`: frees the slot only if it still holds the value seen. */
    method ClearStaleClaim(stale: JobId)
      requires db.Valid() && Cleared(db.model, id)
      modifies db
      ensures db.Valid() && Added() == old(Added()) && db.jobs == old(db.jobs) && Tries() == old(Tries()) + 1
      ensures db.plan == if old(db.plan).activeJob == Some(stale) then old(db.plan).(activeJob := None) else old(db.plan)
    {
      if db.plan.activeJob == Some(stale) {
        db.plan := db.plan.(activeJob := None);
      }
      AddedByStep(db.model, ClearStale(id, stale), id);
      TriesSnoc(db.run, ClearStale(id, stale), id);
      db.Commit(ClearStale(id, stale));
    }

    /**
     One queue request against any interference.  It adds exactly the job it reports as queued,
     which then holds the slot, adds none on every other outcome, and refuses only after two failed tries.
     */
    method QueueVisualComposition(force: bool, cacheMatches: bool, newIds: seq<JobId>) returns (r: QueueOutcome)
      requires db.Valid() && |newIds| == 2
      modifies db
      ensures db.Valid()
      ensures Added() == old(Added()) + if r.Enqueueing? then [r.job] else []
      ensures r.Enqueueing? ==> r.job in newIds && db.plan.activeJob == Some(r.job)
      ensures r.Enqueueing? ==> r.job in db.jobs && db.jobs[r.job] == NewJob
      ensures r.Busy? ==> r.job in db.jobs && Active(db.jobs[r.job])
      ensures r.Cached? ==> cacheMatches && !force
      ensures cacheMatches && !force ==> !r.Enqueueing?
      ensures r.Cached? || r.Refused? ==> Cleared(db.model, id)
      ensures Tries() <= old(Tries()) + 2
      ensures r.Refused? ==> Tries() == old(Tries()) + 2
      ensures r.Cached? ==> Tries() <= old(Tries()) + 1
    {
      var seen := db.plan.activeJob;
      for attempt := 0 to 2
        invariant db.Valid() && Added() == old(Added()) && Tries() == old(Tries()) + attempt
      {
        Interleave();
        var active := ActiveJob();
        if active.Some? {
          return Busy(active.value);
        }
        Interleave();
        if seen.Some? {
          ClearStaleClaim(seen.value);
          Interleave();
          seen := db.plan.activeJob;
          continue;
        }
        if !force && cacheMatches {
          return Cached;
        }
        var won := InsertAndClaim(newIds[attempt]);
        if won {
          return Enqueueing(newIds[attempt]);
        }
        Interleave();
        seen := db.plan.activeJob;
      }
      var active := ActiveJob();
      if active.Some? {
        return Busy(active.value);
      }
      return Refused;
    }
  }
}
