// What a Salesforce report does to the rows, said of the report alone: which reports are
// accepted, what they record, and what reconciliation makes of them (progress of
// src/deploy/deployment-attempt-repository.ts, recordReconciliationReport of
// src/deploy/deployment-job-repository.ts, src/deploy/deployment-service.ts).
module DeploymentReports {
  import opened Options
  import opened DeploymentModel
  import opened DeploymentSteps
  import opened DeploymentRuns
  import opened DeploymentProtocol

  // Salesforce is done, does not deny success and names one of the two good endings.
  predicate EndedWell(p: Progress)
  {
    p.done && p.success != Some(false) && p.status in {"Succeeded", "SucceededPartial"}
  }

  lemma WellMeansSuccess(p: Progress)
    ensures EndedWell(p) <==> p.done && ReportsSuccess(p)
  {
  }

  // Nothing but this job and this attempt is written.
  ghost predicate OnlyThese(before: Db, after: Db, id: JobId, a: Option<AttemptId>)
  {
    && |after.jobs| == |before.jobs| && |after.attempts| == |before.attempts| && after.approvals == before.approvals
    && (forall j | 0 <= j < |before.jobs| && j != id :: after.jobs[j] == before.jobs[j])
    && (forall b | 0 <= b < |before.attempts| && Some(b) != a :: after.attempts[b] == before.attempts[b])
  }

  // ---- The remote id of a submission ----

  // The id of a fresh submission is recorded exactly for the active attempt of a running job,
  // in its own column, and the version counts up.
  lemma SubmissionRecordsExactly(db: Db, id: JobId, a: AttemptId, remoteId: string, now: int)
    ensures var o := RecordSubmitted(db, id, a, remoteId, now);
      && (o.Committed? <==> (&& id < |db.jobs| && a < |db.attempts| && db.jobs[id].activeAttempt == Some(a) && db.attempts[a].jobId == id
                             && db.jobs[id].status in {DryRunRunning, Deploying} && db.attempts[a].state == Submitting))
      && (o.Committed? ==> OnlyThese(db, o.db, id, Some(a)) && NowKnown(db, o.db, id, a, remoteId))
  {
  }

  // The attempt is submitted under this id, which only its own column and its job name.
  ghost predicate NowKnown(before: Db, after: Db, id: JobId, a: AttemptId, remoteId: string)
    requires id < |before.jobs| && id < |after.jobs| && a < |before.attempts| && a < |after.attempts|
  {
    && after.jobs[id].remoteId == Some(remoteId) && after.jobs[id].remoteStatus == RemoteSubmitted
    && after.jobs[id].status == before.jobs[id].status
    && var (was, attempt) := (before.attempts[a], after.attempts[a]);
    && attempt.state == Submitted && attempt.remoteStatus == RemoteSubmitted && OwnId(attempt) == Some(remoteId)
    && attempt.version == was.version + 1 && attempt.operation == was.operation && attempt.payloadChecksum == was.payloadChecksum
    && (if was.operation == Validate then attempt.deploymentId == was.deploymentId else attempt.validationId == was.validationId)
  }

  // Nobody else's attempt or job goes by this remote id.
  ghost predicate OnlyHere(db: Db, id: JobId, a: AttemptId, remoteId: string)
  {
    && (forall b | 0 <= b < |db.attempts| && b != a ::
          db.attempts[b].validationId != Some(remoteId) && db.attempts[b].deploymentId != Some(remoteId))
    && (forall j | 0 <= j < |db.jobs| && j != id :: db.jobs[j].remoteId != Some(remoteId))
  }

  // An administrator's id is taken exactly for a submission in doubt of a job that awaits
  // reconciliation, of the operation named, and if it is in use nowhere else; nor is it then.
  lemma BindingRecordsExactly(db: Db, id: JobId, a: AttemptId, operation: Operation, remoteId: string, now: int)
    ensures var o := Bind(db, id, a, operation, remoteId, now);
      && (o.Committed? <==> (&& id < |db.jobs| && a < |db.attempts| && db.jobs[id].activeAttempt == Some(a) && db.attempts[a].jobId == id
                             && db.jobs[id].status == ReconcileRequired && db.attempts[a].operation == operation
                             && db.attempts[a].state == Submitting && OwnId(db.attempts[a]).None? && OnlyHere(db, id, a, remoteId)))
      && (o.Committed? ==>
            && OnlyThese(db, o.db, id, Some(a)) && NowKnown(db, o.db, id, a, remoteId) && OnlyHere(o.db, id, a, remoteId)
            && o.db.jobs[id].evidence == ManuallyAttested)
  {
    if Bind(db, id, a, operation, remoteId, now).Committed? { assert OnlyHere(db, id, a, remoteId); }
    if id < |db.jobs| && a < |db.attempts| && !OnlyHere(db, id, a, remoteId) { assert IdInUseElsewhere(db, id, a, remoteId); }
  }

  // Writes without an attempt are accepted exactly for a running job that tracks none.
  lemma UntrackedRecordsExactly(db: Db, id: JobId, remoteId: string, remoteStatus: RemoteStatus, now: int)
    ensures var o := RecordUntracked(db, id, remoteId, remoteStatus, now);
      && (o.Committed? <==> (&& id < |db.jobs| && db.jobs[id].activeAttempt.None? && db.jobs[id].status in {DryRunRunning, Deploying}))
      && (o.Committed? ==>
            && OnlyThese(db, o.db, id, None) && o.db.jobs[id].remoteId == Some(remoteId)
            && o.db.jobs[id].remoteStatus == remoteStatus && o.db.jobs[id].status == db.jobs[id].status)
  {
  }

  // ---- Progress of a running submission ----

  // A progress report is accepted exactly for the active, unfinished attempt of a running job,
  // of the kind the run is of, and under the remote id known so far.
  lemma ProgressAcceptedExactly(db: Db, id: JobId, a: AttemptId, p: Progress)
    ensures RecordProgress(db, id, a, p).Committed?
      <==> (&& id < |db.jobs| && a < |db.attempts| && db.jobs[id].activeAttempt == Some(a) && db.attempts[a].jobId == id
            && db.jobs[id].status in {DryRunRunning, Deploying} && db.attempts[a].state in {Submitting, Submitted}
            && (db.attempts[a].operation == Validate <==> p.phase == DryRun)
            && OwnId(db.attempts[a]) in {None, Some(p.deploymentId)})
  {
  }

  // It ends the attempt exactly if Salesforce is done, and then as a success exactly if the
  // report does not deny it and names a good ending.
  lemma ProgressRecordsExactly(db: Db, id: JobId, a: AttemptId, p: Progress)
    requires RecordProgress(db, id, a, p).Committed?
    ensures var db' := RecordProgress(db, id, a, p).db;
      && OnlyThese(db, db', id, Some(a))
      && var (attempt, before) := (db'.attempts[a], db.attempts[a]);
      && (attempt.remoteStatus == RemoteSucceeded <==> EndedWell(p))
      && (attempt.remoteStatus == RemoteFailed <==> p.done && !EndedWell(p))
      && (attempt.remoteStatus == RemoteRunning <==> !p.done)
      && attempt.state == (if p.done then Terminal else Submitted)
      && OwnId(attempt) == Some(p.deploymentId) && attempt.version == before.version + 1
      && attempt.payloadChecksum == before.payloadChecksum && attempt.operation == before.operation
      && db'.jobs[id].remoteStatus == attempt.remoteStatus && db'.jobs[id].remoteId == Some(p.deploymentId)
      && db'.jobs[id].status == db.jobs[id].status
  {
    WellMeansSuccess(p);
  }

  // ---- Reports that reconciliation fetches ----

  lemma ReportAcceptedExactly(db: Db, id: JobId, mark: Option<AttemptMark>, p: Progress, now: int)
    ensures RecordReport(db, id, mark, p, now).Committed?
      <==> (&& id < |db.jobs| && db.jobs[id].status == ReconcileRequired
            && (mark.Some? ==>
                  && mark.value.id < |db.attempts| && db.jobs[id].activeAttempt == Some(mark.value.id)
                  && db.attempts[mark.value.id].jobId == id && db.attempts[mark.value.id].version == mark.value.version))
  {
  }

  // Here a finished report is a success unless it denies it, whatever status it names, and an
  // unfinished one is submitted or running by its status.
  lemma ReportRecordsExactly(db: Db, id: JobId, mark: Option<AttemptMark>, p: Progress, now: int)
    requires RecordReport(db, id, mark, p, now).Committed?
    ensures var db' := RecordReport(db, id, mark, p, now).db; var remote := db'.jobs[id].remoteStatus;
      && OnlyThese(db, db', id, if mark.Some? then Some(mark.value.id) else None)
      && (remote == RemoteSucceeded <==> p.done && p.success != Some(false))
      && (remote == RemoteFailed <==> p.done && p.success == Some(false))
      && (remote == RemoteSubmitted <==> !p.done && p.status in {"Queued", "Pending"})
      && (remote == RemoteRunning <==> !p.done && p.status !in {"Queued", "Pending"})
      && db'.jobs[id].status == ReconcileRequired && db'.jobs[id].remoteId == Some(p.deploymentId)
      && (mark.Some? ==>
            && var (attempt, before) := (db'.attempts[mark.value.id], db.attempts[mark.value.id]);
            && attempt.remoteStatus == remote && attempt.state == (if p.done then Terminal else Submitted)
            && attempt.version == before.version + 1 && OwnId(attempt) == OwnId(before))
  {
  }

  // What a finished report makes of the job: it is failed, or finished as its kind demands,
  // except that an unprepared dry run stays where it is.
  function Conclusion(seen: Job, validation: bool, p: Progress): Option<Status>
  {
    if !p.done then None
    else if !EndedWell(p) then Some(Status.Failed)
    else if seen.kind == Deployment then Some(if validation then ValidatedPendingExecution else Status.Succeeded)
    else if seen.prepared then Some(ApprovalPending)
    else None
  }

  // Reconciliation writes down the report it fetched unless it answers for the wrong kind of
  // run, and goes on to its conclusion exactly if that write succeeded.
  lemma ReconciliationFollowsReport(sys: System, r: Actor, p: Progress, fault: Fault, now: int)
    requires r.Reconciler? && r.reconcileStep.SawAttempt?
    ensures var f := StepReconciler(sys, r, Observe(p, fault), now);
      var mark := r.reconcileStep.mark; var validation := r.reconcileStep.validation;
      var checkOnly := validation || (mark.None? && r.seen.kind == DryRun);
      var fits := p.checkOnly == Some(checkOnly) || (mark.Some? && p.checkOnly.None?);
      var heard := fits && fault == NoFault && RecordReport(sys.db, r.job, mark, p, now).Committed?;
      var conclusion := Conclusion(r.seen, validation, p);
      && f.call == (if fits then Some(CallReport(r.job, mark, p)) else None)
      && f.next == if heard && conclusion.Some? then r.(reconcileStep := Concluding(conclusion.value)) else Gone
  {
    WellMeansSuccess(p);
  }
}
