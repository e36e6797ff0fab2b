// What a status transition checks and writes, said of the row and the request alone
// (transition of src/deploy/deployment-job-repository.ts, src/deploy/deployment-state-machine.ts).
module DeploymentTransitions {
  import opened Options
  import opened DeploymentModel
  import opened DeploymentSteps
  import opened DeploymentRuns

  // It commits exactly for an existing job from whose status the next one may follow, that is
  // of the right kind to run so, and, if an attempt is named, for its current version.
  lemma TransitionCommitsExactly(db: Db, id: JobId, next: Status, details: Details, now: int)
    ensures Transition(db, id, next, details, now).Committed?
      <==> (&& id < |db.jobs| && Allowed(db.jobs[id].status, next)
            && (next == Deploying ==> db.jobs[id].kind == Deployment) && (next == DryRunRunning ==> db.jobs[id].kind == DryRun)
            && (details.attemptId.Some? <==> details.attemptVersion.Some?)
            && (details.attemptId.Some? ==>
                  && db.jobs[id].activeAttempt == details.attemptId && details.attemptId.value < |db.attempts|
                  && db.attempts[details.attemptId.value].jobId == id
                  && db.attempts[details.attemptId.value].version == details.attemptVersion.value))
  {
  }

  // It writes the status and its times, and of the remote side what it was told.
  lemma TransitionRecords(db: Db, id: JobId, next: Status, details: Details, now: int)
    requires Transition(db, id, next, details, now).Committed?
    ensures var db' := Transition(db, id, next, details, now).db; var (job, job') := (db.jobs[id], db'.jobs[id]);
      && db'.attempts == db.attempts && db'.approvals == db.approvals && |db'.jobs| == |db.jobs|
      && (forall j | 0 <= j < |db.jobs| && j != id :: db'.jobs[j] == db.jobs[j])
      && job'.status == next && job'.updatedAt == now
      && job'.startedAt == (if next in {DryRunRunning, Deploying} then Some(now) else job.startedAt)
      && (next in {ApprovalPending, ValidatedPendingExecution, Succeeded, Failed} ==>
            job'.completedAt == Some(if details.completedAt.Some? then details.completedAt.value else now))
      && (next in {DryRunRunning, Deploying, ReconcileRequired} ==> job'.completedAt.None?)
      && job'.remoteId == (if details.remoteId.Some? then details.remoteId else job.remoteId)
      && job'.remoteStatus == (if details.remoteStatus.Some? then details.remoteStatus.value else job.remoteStatus)
      && job'.kind == job.kind && job'.payloadChecksum == job.payloadChecksum && job'.prepared == job.prepared
      && job'.testPlan == job.testPlan && job'.dryRunResult == job.dryRunResult && job'.targetIdentity == job.targetIdentity
      && job'.activeAttempt == job.activeAttempt && job'.createdAt == job.createdAt && job'.dryRunJobId == job.dryRunJobId
  {
  }

  // ---- What else is written to a row ----

  // The chosen mode is recorded exactly in a running deployment.
  lemma PlanRecords(db: Db, id: JobId, mode: ExecutionMode, validationId: Option<string>, now: int)
    ensures var o := RecordExecutionPlan(db, id, mode, validationId, now);
      && (o.Committed? <==> id < |db.jobs| && db.jobs[id].kind == Deployment && db.jobs[id].status == Deploying)
      && (o.Committed? ==>
            && o.db == db.(jobs := db.jobs[id := o.db.jobs[id]])
            && o.db.jobs[id].executionMode == Some(mode) && o.db.jobs[id].reusedValidationId == validationId
            && o.db.jobs[id] == db.jobs[id].(executionMode := Some(mode), reusedValidationId := validationId, updatedAt := now))
  {
  }

  // The row after its artifacts were stored.
  predicate HoldsArtifacts(before: Job, after: Job, a: Artifacts)
  {
    && after.payloadChecksum == a.payloadChecksum && after.payloadDigestVersion == 2 && after.runDirectory == Some(a.runDirectory)
    && after.prepared && after.testPlan == Some(a.testPlan) && after.dryRunResult == a.dryRunResult
    && after.status == before.status && after.kind == before.kind && after.activeAttempt == before.activeAttempt
    && after.targetIdentity == before.targetIdentity && after.remoteId == before.remoteId && after.remoteStatus == before.remoteStatus
  }

  // Artifacts are stored once in a running dry run, and in a running direct deployment, but
  // never in an approved one.
  lemma ArtifactsRecord(db: Db, id: JobId, a: Artifacts, now: int)
    ensures var o := RecordDryRunArtifacts(db, id, a, now);
      && (o.Committed? <==> (&& IsChecksum(a.payloadChecksum) && id < |db.jobs| && db.jobs[id].kind == DryRun
                             && db.jobs[id].status == DryRunRunning && !db.jobs[id].prepared))
      && (o.Committed? ==> o.db == db.(jobs := db.jobs[id := o.db.jobs[id]]) && HoldsArtifacts(db.jobs[id], o.db.jobs[id], a))
    ensures var o := RecordDirectArtifacts(db, id, a, now);
      && (o.Committed? <==> (&& IsChecksum(a.payloadChecksum) && id < |db.jobs| && db.jobs[id].kind == Deployment
                             && db.jobs[id].status == Deploying && db.jobs[id].dryRunJobId.None?))
      && (o.Committed? ==> o.db == db.(jobs := db.jobs[id := o.db.jobs[id]]) && HoldsArtifacts(db.jobs[id], o.db.jobs[id], a))
  {
  }

  // ---- Every run: when a job ran ----

  // A job has a start time from the moment it runs, and only then; a job that ran to an end
  // has both times.
  predicate TimesFit(job: Job)
  {
    && (job.status == Queued ==> job.startedAt.None? && job.completedAt.None?)
    && (job.status in {DryRunRunning, Deploying, ReconcileRequired} ==> job.startedAt.Some? && job.completedAt.None?)
    && (job.status in {ApprovalPending, ValidatedPendingExecution, Succeeded} ==> job.startedAt.Some? && job.completedAt.Some?)
    && (job.status == Failed ==> job.completedAt.Some?)
  }

  // Other calls leave the status and its times alone, and new jobs are queued.
  lemma OnlyTransitionsMoveTimes(db: Db, c: Call, now: int, j: JobId)
    requires !c.CallTransition? && j < |Apply(db, c, now).jobs|
    ensures var job := Apply(db, c, now).jobs[j];
      if j < |db.jobs| then job.status == db.jobs[j].status && job.startedAt == db.jobs[j].startedAt && job.completedAt == db.jobs[j].completedAt
      else job.status == Queued && job.startedAt.None? && job.completedAt.None?
  {
  }

  lemma StepFitsTimes(db: Db, c: Call, now: int, j: JobId)
    requires j < |Apply(db, c, now).jobs| && (j < |db.jobs| ==> TimesFit(db.jobs[j]))
    ensures TimesFit(Apply(db, c, now).jobs[j])
  {
    if !c.CallTransition? { OnlyTransitionsMoveTimes(db, c, now, j); }
    else if Transition(db, c.id, c.next, c.details, now).Committed? { TransitionRecords(db, c.id, c.next, c.details, now); }
  }

  lemma {:induction false} TimesAlong(calls: seq<TimedCall>, j: JobId)
    requires j < |Run(EMPTY, calls).jobs|
    ensures TimesFit(Run(EMPTY, calls).jobs[j])
  {
    if calls != [] {
      var last := |calls| - 1;
      var before := Run(EMPTY, calls[..last]);
      if j < |before.jobs| { TimesAlong(calls[..last], j); }
      StepFitsTimes(before, calls[last].call, calls[last].now, j);
    }
  }

  // In every run, whoever calls.
  lemma TimesInEveryRun(db: Db, j: JobId)
    requires ReachedDb(db) && j < |db.jobs|
    ensures TimesFit(db.jobs[j])
  {
    var calls :| Run(EMPTY, calls) == db;
    TimesAlong(calls, j);
  }
}
