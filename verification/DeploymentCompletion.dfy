// The in-memory retrier of confirmed results (src/deploy/deployment-completion.ts), as one
// process runs it between its awaits: every store call may fail before or after it commits.
module DeploymentCompletion {
  import opened Options
  import opened DeploymentModel
  import opened DeploymentSteps
  import opened DeploymentRuns
  import opened DeploymentProtocol
  import opened DeploymentStore

  // What goes wrong with the calls made for one job: the write, the status read, the attempt
  // read and the demotion.
  datatype Weather = Weather(write: Fault, statusReadFails: bool, attemptReadFails: bool, demotion: Fault)

  // Nothing more can be done for this result: the job has finished, or its attempt was
  // changed since the result was read.
  predicate Settled(db: Db, id: JobId, c: Completion)
  {
    id < |db.jobs| && (Finished(db.jobs[id].status) || !StillCurrent(db, id, c.details))
  }

  // Only transitions of one job happened, each to its target or to reconciliation.
  ghost predicate OnlyThisJob(before: Db, after: Db, id: JobId)
  {
    && after.attempts == before.attempts && after.approvals == before.approvals && |after.jobs| == |before.jobs|
    && (forall j | 0 <= j < |before.jobs| && j != id :: after.jobs[j] == before.jobs[j])
    && (id < |before.jobs| ==>
          after.jobs[id].activeAttempt == before.jobs[id].activeAttempt
          && (Finished(before.jobs[id].status) ==> Finished(after.jobs[id].status)))
  }

  // Settled results stay settled through such steps.
  lemma SettledStays(before: Db, after: Db, id: JobId, other: JobId, c: Completion)
    requires OnlyThisJob(before, after, id) && Settled(before, other, c)
    ensures Settled(after, other, c)
  {
  }

  lemma OnlyThisJobTrans(a: Db, b: Db, c: Db, id: JobId)
    requires OnlyThisJob(a, b, id) && OnlyThisJob(b, c, id)
    ensures OnlyThisJob(a, c, id)
  {
  }

  // The result can be stored as things stand, and none of the calls fails.
  predicate Storable(db: Db, id: JobId, c: Completion, w: Weather, now: int)
  {
    && !w.statusReadFails && !w.attemptReadFails && w.write == NoFault
    && Transition(db, id, c.target, c.details, now).Committed?
  }

  // Whether it can depends on the attempts and on the job's own row.
  lemma StorableElsewhere(before: Db, after: Db, id: JobId, c: Completion, w: Weather, now: int)
    requires after.attempts == before.attempts && |after.jobs| == |before.jobs|
    requires id < |before.jobs| ==> after.jobs[id] == before.jobs[id]
    ensures Storable(after, id, c, w, now) <==> Storable(before, id, c, w, now)
  {
  }

  // How far a round of retries has come: `entries` and `before` are what it began with, the
  // entries in `todo` and the rows of their jobs are as they were.
  ghost predicate RetriedSoFar(before: Db, after: Db, entries: map<JobId, Completion>, pending: map<JobId, Completion>,
                               todo: set<JobId>, weather: JobId -> Weather, clock: JobId -> int)
  {
    && todo <= pending.Keys <= entries.Keys
    && (forall id | id in pending :: pending[id] == entries[id])
    && (forall id | id in entries :: id in pending || Settled(after, id, entries[id]))
    && after.attempts == before.attempts && after.approvals == before.approvals && |after.jobs| == |before.jobs|
    && (forall j | 0 <= j < |before.jobs| && (j !in entries || j in todo) :: after.jobs[j] == before.jobs[j])
    && (forall id | id in entries.Keys - todo && Storable(before, id, entries[id], weather(id), clock(id)) ::
          id !in pending && id < |after.jobs| && Finished(after.jobs[id].status))
  }

  lemma RetriedNext(before: Db, middle: Db, after: Db, entries: map<JobId, Completion>, pending: map<JobId, Completion>,
                    left: map<JobId, Completion>, todo: set<JobId>, id: JobId, weather: JobId -> Weather, clock: JobId -> int)
    requires RetriedSoFar(before, middle, entries, pending, todo, weather, clock) && id in todo
    requires OnlyThisJob(middle, after, id) && (left == pending || left == pending - {id})
    requires id !in left ==> Settled(after, id, entries[id])
    requires Storable(middle, id, entries[id], weather(id), clock(id)) ==>
      id !in left && id < |after.jobs| && Finished(after.jobs[id].status)
    ensures RetriedSoFar(before, after, entries, left, todo - {id}, weather, clock)
  {
    forall other | other in entries ensures other in left || Settled(after, other, entries[other]) {
      if other !in pending { SettledStays(middle, after, id, other, entries[other]); }
    }
    forall other | other in entries.Keys - (todo - {id}) && Storable(before, other, entries[other], weather(other), clock(other))
      ensures other !in left && other < |after.jobs| && Finished(after.jobs[other].status)
    {
      StorableElsewhere(before, middle, id, entries[id], weather(id), clock(id));
    }
  }

  // A running job whose attempt is as it was read can be handed to reconciliation.
  predicate Demotable(db: Db, id: JobId, details: Details)
  {
    && id < |db.jobs| && Running(db.jobs[id].status)
    && (details.attemptId.Some? <==> details.attemptVersion.Some?) && StillCurrent(db, id, details)
  }

  lemma DemotionCommits(db: Db, id: JobId, details: Details, now: int)
    requires DbInv(db) && Demotable(db, id, details)
    ensures Transition(db, id, ReconcileRequired, details, now).Committed?
  {
    assert JobFine(db, id);
  }

  class DeploymentCompletion {
    const store: DeploymentStore
    var pending: map<JobId, Completion>

    constructor (store: DeploymentStore)
      ensures this.store == store && pending == map[]
    {
      this.store := store;
      pending := map[];
    }

    // One transition as the caller sees it.
    method TryTransition(id: JobId, next: Status, details: Details, fault: Fault, now: int) returns (confirmed: bool)
      requires store.Valid()
      modifies store`jobs
      ensures store.Valid() && Moves(old(store.Contents()), store.Contents())
      ensures store.Contents() == Perform(old(store.Contents()), Some(CallTransition(id, next, details)), fault, now)
      ensures Transition(old(store.Contents()), id, next, details, now).Committed? && fault != WriteLost ==>
        id < |store.jobs| && store.jobs[id].status == next
      ensures !Transition(old(store.Contents()), id, next, details, now).Committed? || fault == WriteLost ==>
        store.Contents() == old(store.Contents())
      ensures confirmed <==> Confirmed(old(store.Contents()), CallTransition(id, next, details), fault, now)
      ensures OnlyThisJob(old(store.Contents()), store.Contents(), id)
      ensures confirmed ==> id < |store.jobs| && store.jobs[id].status == next
    {
      confirmed := false;
      MovesReflexive(store.Contents());
      if fault != WriteLost {
        var r := store.ChangeStatus(id, next, details, now);
        confirmed := r.Ok? && fault == NoFault;
      }
    }

    // After complete() the result is pending or settled, whatever failed. It is confirmed
    // exactly if it could be stored and the answer came; a job that ran does not go on running
    // unless a call failed or its attempt was changed.
    method Complete(id: JobId, c: Completion, w: Weather, now: int) returns (confirmed: bool)
      requires store.Valid()
      requires Finished(c.target)
      modifies this`pending, store`jobs
      ensures store.Valid()
      ensures OnlyThisJob(old(store.Contents()), store.Contents(), id)
      ensures id in pending || Settled(store.Contents(), id, c)
      ensures id in pending ==> pending[id] == c || (id in old(pending) && pending[id] == old(pending)[id])
      ensures forall j | j != id :: (j in pending <==> j in old(pending)) && (j in pending ==> pending[j] == old(pending)[j])
      ensures confirmed ==> pending == old(pending) && id < |store.jobs| && store.jobs[id].status == c.target
      ensures confirmed <==> w.write == NoFault && Transition(old(store.Contents()), id, c.target, c.details, now).Committed?
      ensures w.write != WriteLost && !w.statusReadFails && Transition(old(store.Contents()), id, c.target, c.details, now).Committed?
        ==> id < |store.jobs| && store.jobs[id].status == c.target && (confirmed || id !in pending)
      ensures !w.statusReadFails && !w.attemptReadFails && w.demotion != WriteLost
        && Demotable(old(store.Contents()), id, c.details)
        ==> id < |store.jobs| && store.jobs[id].status in {c.target, ReconcileRequired}
    {
      confirmed := TryTransition(id, c.target, c.details, w.write, now);
      if confirmed { return; }
      pending := pending[id := c];
      if w.statusReadFails || id >= |store.jobs| { return; }
      var status := store.jobs[id].status;
      if status == c.target {
        pending := pending - {id};
        return;
      }
      if w.attemptReadFails { return; }
      if !StillCurrent(Db(store.jobs, store.attempts, store.approvals), id, c.details) {
        pending := pending - {id};
        return;
      }
      if status == ReconcileRequired { return; }
      ghost var middle := store.Contents();
      if Demotable(middle, id, c.details) { DemotionCommits(middle, id, c.details, now); }
      var demoted := TryTransition(id, ReconcileRequired, c.details, w.demotion, now);
      OnlyThisJobTrans(old(store.Contents()), middle, store.Contents(), id);
    }

    // retryPending: every entry is written, or kept, or dropped because it is settled; one that
    // can be stored is stored and forgotten, whatever becomes of the others.
    method RetryPending(weather: JobId -> Weather, clock: JobId -> int)
      requires store.Valid()
      requires forall id | id in pending :: Finished(pending[id].target)
      modifies this`pending, store`jobs
      ensures store.Valid()
      ensures forall id | id in pending :: id in old(pending) && pending[id] == old(pending)[id]
      ensures forall id | id in old(pending) :: id in pending || Settled(store.Contents(), id, old(pending)[id])
      ensures store.attempts == old(store.attempts) && store.approvals == old(store.approvals) && |store.jobs| == |old(store.jobs)|
      ensures forall j | 0 <= j < |store.jobs| && j !in old(pending) :: store.jobs[j] == old(store.jobs)[j]
      ensures forall id | id in old(pending) && Storable(old(store.Contents()), id, old(pending)[id], weather(id), clock(id)) ::
        id !in pending && id < |store.jobs| && Finished(store.jobs[id].status)
    {
      var todo := pending.Keys;
      while todo != {}
        invariant store.Valid()
        invariant RetriedSoFar(old(store.Contents()), store.Contents(), old(pending), pending, todo, weather, clock)
        decreases |todo|
      {
        var id :| id in todo;
        ghost var middle, left := store.Contents(), pending;
        RetryOne(id, pending[id], weather(id), clock(id));
        RetriedNext(old(store.Contents()), middle, store.Contents(), old(pending), left, pending, todo, id, weather, clock);
        todo := todo - {id};
      }
    }

    method RetryOne(id: JobId, c: Completion, w: Weather, now: int)
      requires store.Valid()
      requires id in pending && pending[id] == c && Finished(c.target)
      modifies this`pending, store`jobs
      ensures store.Valid()
      ensures OnlyThisJob(old(store.Contents()), store.Contents(), id)
      ensures pending == old(pending) || pending == old(pending) - {id}
      ensures id !in pending ==> Settled(store.Contents(), id, c)
      ensures Storable(old(store.Contents()), id, c, w, now) ==>
        id !in pending && id < |store.jobs| && Finished(store.jobs[id].status)
        && (!Finished(old(store.jobs)[id].status) ==> store.jobs[id].status == c.target)
    {
      if w.statusReadFails || id >= |store.jobs| { return; }
      if Finished(store.jobs[id].status) {
        pending := pending - {id};
        return;
      }
      if w.attemptReadFails { return; }
      if !StillCurrent(Db(store.jobs, store.attempts, store.approvals), id, c.details) {
        pending := pending - {id};
        return;
      }
      var confirmed := TryTransition(id, c.target, c.details, w.write, now);
      if confirmed { pending := pending - {id}; }
    }

    // flush: returns normally exactly if nothing is pending any more, so surely if every
    // pending result can be stored.
    method Flush(weather: JobId -> Weather, clock: JobId -> int) returns (thrown: bool)
      requires store.Valid()
      requires forall id | id in pending :: Finished(pending[id].target)
      modifies this`pending, store`jobs
      ensures store.Valid()
      ensures !thrown <==> pending == map[]
      ensures !thrown ==> forall id | id in old(pending) :: Settled(store.Contents(), id, old(pending)[id])
      ensures store.attempts == old(store.attempts)
      ensures (forall id | id in old(pending) :: Storable(old(store.Contents()), id, old(pending)[id], weather(id), clock(id)))
        ==> !thrown && forall id | id in old(pending) :: id < |store.jobs| && Finished(store.jobs[id].status)
    {
      RetryPending(weather, clock);
      thrown := |pending| > 0;
    }
  }
}
