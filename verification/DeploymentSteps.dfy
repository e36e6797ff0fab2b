// Every transaction and guarded UPDATE of the deployment repositories as one atomic step
// (src/deploy/deployment-job-repository.ts, src/deploy/deployment-attempt-repository.ts).
// Steps take whatever arguments a caller might pass.
module DeploymentSteps {
  import opened Options
  import opened DeploymentModel

  function SetJob(db: Db, id: JobId, job: Job): Db
    requires id < |db.jobs|
  {
    db.(jobs := db.jobs[id := job])
  }

  function SetAttempt(db: Db, id: AttemptId, attempt: Attempt): Db
    requires id < |db.attempts|
  {
    db.(attempts := db.attempts[id := attempt])
  }

  // ---- Input formats ----

  predicate IsHexDigit(c: char) { '0' <= c <= '9' || 'a' <= c <= 'f' || 'A' <= c <= 'F' }

  predicate IsAlphanumeric(c: char) { '0' <= c <= '9' || 'a' <= c <= 'z' || 'A' <= c <= 'Z' }

  predicate IsChecksum(s: string)
  {
    |s| == 64 && forall i | 0 <= i < |s| :: IsHexDigit(s[i])
  }

  predicate IsClientRequestId(s: string)
  {
    && 8 <= |s| <= 200 && IsAlphanumeric(s[0])
    && forall i | 0 <= i < |s| :: IsAlphanumeric(s[i]) || s[i] in {'.', '_', ':', '-'}
  }

  // ---- Creating jobs ----

  datatype NewJob = NewJob(
    targetAlias: string, payloadChecksum: string, runDirectory: Option<string>, createdBy: string,
    clientRequestId: string, requestHash: string, targetIdentity: OrgIdentity)

  datatype Creation = Creation(id: JobId, created: bool)

  function FreshJob(kind: Kind, input: NewJob, now: int): Job
  {
    Job(kind, Queued, input.targetAlias, input.payloadChecksum, 2, input.runDirectory, None, None,
        input.createdBy, Some(input.clientRequestId), Some(input.requestHash), now, now, None, None,
        false, None, None, RemoteNotSubmitted, Some(input.targetIdentity), None, NotStarted, None, None)
  }

  // The rows an Idempotency-Key is looked up among: dry runs, or direct deployments.
  predicate SameRequest(job: Job, kind: Kind, createdBy: string, clientRequestId: string)
  {
    && job.kind == kind && job.dryRunJobId.None?
    && job.createdBy == createdBy && job.clientRequestId == Some(clientRequestId)
  }

  function FindRequest(jobs: seq<Job>, kind: Kind, createdBy: string, clientRequestId: string): (r: Option<JobId>)
    ensures r.Some? ==> r.value < |jobs| && SameRequest(jobs[r.value], kind, createdBy, clientRequestId)
    ensures r.None? ==> forall i | 0 <= i < |jobs| :: !SameRequest(jobs[i], kind, createdBy, clientRequestId)
  {
    if jobs == [] then None
    else
      var last := |jobs| - 1;
      if SameRequest(jobs[last], kind, createdBy, clientRequestId) then Some(last)
      else
        assert forall i | 0 <= i < last :: jobs[i] == jobs[..last][i];
        FindRequest(jobs[..last], kind, createdBy, clientRequestId)
  }

  function CreateOnce(db: Db, kind: Kind, input: NewJob, allowed: bool, now: int): Outcome<Creation>
  {
    var existing := FindRequest(db.jobs, kind, input.createdBy, input.clientRequestId);
    if existing.Some? then
      if db.jobs[existing.value].requestHash != Some(input.requestHash) then Refused(IDEMPOTENCY_CONFLICT)
      else Committed(db, Creation(existing.value, false))
    else if !allowed then Refused(APPROVAL_DENIED)
    else Committed(db.(jobs := db.jobs + [FreshJob(kind, input, now)]), Creation(|db.jobs|, true))
  }

  // createIdempotentDryRun
  function CreateDryRun(db: Db, input: NewJob, now: int): Outcome<Creation>
  {
    if !IsClientRequestId(input.clientRequestId) || !IsChecksum(input.requestHash)
      || !IsChecksum(input.payloadChecksum) then Refused(INVALID_ARGUMENT)
    else CreateOnce(db, DryRun, input, true, now)
  }

  // createDirectDeployment; `confirmed` stands for the two confirmation texts, `mayDeploy`
  // for the creator's role.
  function CreateDirectDeployment(db: Db, input: NewJob, confirmed: bool, mayDeploy: bool, now: int): Outcome<Creation>
  {
    if !confirmed then Refused(APPROVAL_DENIED)
    else if !IsClientRequestId(input.clientRequestId) || !IsChecksum(input.requestHash)
      || !IsChecksum(input.payloadChecksum) then Refused(INVALID_ARGUMENT)
    else CreateOnce(db, Deployment, input, mayDeploy, now)
  }

  // ---- Status transitions ----

  datatype Details = Details(
    completedAt: Option<int>, remoteId: Option<string>, remoteStatus: Option<RemoteStatus>,
    attemptId: Option<AttemptId>, attemptVersion: Option<nat>)

  const NO_DETAILS: Details := Details(None, None, None, None, None)

  // The row is the job's active attempt and no attempt write has happened since `version`.
  predicate CurrentAttempt(db: Db, id: JobId, attemptId: AttemptId, version: nat)
  {
    && id < |db.jobs| && attemptId < |db.attempts|
    && db.jobs[id].activeAttempt == Some(attemptId)
    && db.attempts[attemptId].jobId == id && db.attempts[attemptId].version == version
  }

  predicate DetailsHold(db: Db, id: JobId, details: Details)
  {
    || (details.attemptId.None? && details.attemptVersion.None?)
    || (details.attemptId.Some? && details.attemptVersion.Some?
        && CurrentAttempt(db, id, details.attemptId.value, details.attemptVersion.value))
  }

  function Transition(db: Db, id: JobId, next: Status, details: Details, now: int): Outcome<()>
  {
    if id >= |db.jobs| then Refused(INVALID_ARGUMENT)
    else
      var job := db.jobs[id];
      var decision := Decide(job, next, now, details.completedAt);
      if decision.None? || !DetailsHold(db, id, details) then Refused(INVALID_JOB_STATE)
      else
        Committed(SetJob(db, id, job.(
          status := decision.value.status,
          startedAt := decision.value.startedAt,
          completedAt := decision.value.completedAt,
          updatedAt := now,
          remoteId := details.remoteId.OrElse(job.remoteId),
          remoteStatus := details.remoteStatus.GetOr(job.remoteStatus))), ())
  }

  // ---- Evidence ----

  function RecordExecutionPlan(db: Db, id: JobId, mode: ExecutionMode, validationId: Option<string>, now: int): Outcome<()>
  {
    if id >= |db.jobs| || db.jobs[id].kind != Deployment || db.jobs[id].status != Deploying then Refused(INVALID_JOB_STATE)
    else Committed(SetJob(db, id, db.jobs[id].(
      executionMode := Some(mode), reusedValidationId := validationId, updatedAt := now)), ())
  }

  datatype Artifacts = Artifacts(payloadChecksum: string, runDirectory: string, testPlan: TestPlan, dryRunResult: Option<Report>)

  function WithArtifacts(job: Job, a: Artifacts, now: int): Job
  {
    job.(payloadChecksum := a.payloadChecksum, payloadDigestVersion := 2, runDirectory := Some(a.runDirectory),
         prepared := true, testPlan := Some(a.testPlan), dryRunResult := a.dryRunResult, updatedAt := now)
  }

  function RecordDryRunArtifacts(db: Db, id: JobId, a: Artifacts, now: int): Outcome<()>
  {
    if !IsChecksum(a.payloadChecksum) then Refused(INVALID_ARGUMENT)
    else if id >= |db.jobs| || db.jobs[id].kind != DryRun || db.jobs[id].status != DryRunRunning || db.jobs[id].prepared
      then Refused(INVALID_JOB_STATE)
    else Committed(SetJob(db, id, WithArtifacts(db.jobs[id], a, now)), ())
  }

  function RecordDirectArtifacts(db: Db, id: JobId, a: Artifacts, now: int): Outcome<()>
  {
    if !IsChecksum(a.payloadChecksum) then Refused(INVALID_ARGUMENT)
    else if id >= |db.jobs| || db.jobs[id].kind != Deployment || db.jobs[id].dryRunJobId.Some? || db.jobs[id].status != Deploying
      then Refused(INVALID_JOB_STATE)
    else Committed(SetJob(db, id, WithArtifacts(db.jobs[id], a, now)), ())
  }

  // ---- Approval ----

  // `confirmed` is the confirmation text, `mayExecute` the job grant, `mayDeploy` the role.
  datatype ApprovalRequest = ApprovalRequest(
    dryRunJobId: JobId, approvedBy: string, payloadChecksum: string, targetAlias: string,
    confirmed: bool, mayExecute: bool, mayDeploy: bool)

  function FindApproval(approvals: seq<Approval>, dryRunJobId: JobId): (r: Option<JobId>)
    ensures r.Some? ==> exists a :: a in approvals && a.dryRunJobId == dryRunJobId && a.deployJobId == r.value
    ensures r.None? ==> forall a | a in approvals :: a.dryRunJobId != dryRunJobId
  {
    if approvals == [] then None
    else if approvals[0].dryRunJobId == dryRunJobId then Some(approvals[0].deployJobId)
    else
      var r := FindApproval(approvals[1..], dryRunJobId);
      assert approvals == [approvals[0]] + approvals[1..];
      r
  }

  function ApprovedJob(dryRunJobId: JobId, dryRun: Job, artifacts: Job, approvedBy: string, now: int): Job
  {
    Job(Deployment, Queued, dryRun.targetAlias, dryRun.payloadChecksum, 2, dryRun.runDirectory, None, Some(dryRunJobId),
        approvedBy, None, None, now, now, None, None,
        true, artifacts.testPlan, artifacts.dryRunResult, RemoteNotSubmitted, dryRun.targetIdentity, None, NotStarted,
        None, None)
  }

  predicate FreshEnough(completedAt: Option<int>, now: int)
  {
    completedAt.Some? && now - completedAt.value <= APPROVAL_TTL_MS
  }

  // Why an approval is refused, in the order of the checks.
  function ApprovalObstacle(db: Db, request: ApprovalRequest, artifacts: Job, now: int): Option<ErrorCode>
  {
    if !request.confirmed then Some(APPROVAL_DENIED)
    else if !IsChecksum(request.payloadChecksum) then Some(INVALID_ARGUMENT)
    else if !request.mayExecute then Some(APPROVAL_DENIED)
    else if request.dryRunJobId >= |db.jobs| then Some(INVALID_ARGUMENT)
    else
      var dryRun := db.jobs[request.dryRunJobId];
      if dryRun.kind != DryRun || dryRun.status != ApprovalPending then Some(APPROVAL_DENIED)
      else if dryRun.payloadChecksum != request.payloadChecksum then Some(PAYLOAD_CHANGED)
      else if dryRun.payloadDigestVersion != 2 then Some(APPROVAL_DENIED)
      else if dryRun.targetAlias != request.targetAlias then Some(APPROVAL_DENIED)
      else if !dryRun.prepared then Some(APPROVAL_DENIED)
      else if dryRun.targetIdentity.None? then Some(APPROVAL_DENIED)
      else if !FreshEnough(dryRun.completedAt, now) then Some(APPROVAL_DENIED)
      else if artifacts.testPlan.None? || artifacts.dryRunResult.None? then Some(APPROVAL_DENIED)
      else if !request.mayDeploy then Some(APPROVAL_DENIED)
      else None
  }

  // approveAndQueueDeployment; `artifacts` is the dry-run row as it was read before the
  // transaction began.
  function ApproveAndQueue(db: Db, request: ApprovalRequest, artifacts: Job, now: int): Outcome<JobId>
  {
    var obstacle := ApprovalObstacle(db, request, artifacts, now);
    if obstacle.Some? then Refused(obstacle.value)
    else
      var dryRun := db.jobs[request.dryRunJobId];
      var existing := FindApproval(db.approvals, request.dryRunJobId);
      if existing.Some? then Committed(db, existing.value)
      else
        Committed(db.(
          jobs := db.jobs + [ApprovedJob(request.dryRunJobId, dryRun, artifacts, request.approvedBy, now)],
          approvals := db.approvals + [Approval(
            request.dryRunJobId, |db.jobs|, request.approvedBy, dryRun.payloadChecksum, dryRun.targetAlias)]), |db.jobs|)
  }

  // ---- Submission attempts ----

  datatype Intent = Intent(
    operation: Operation, payloadChecksum: string, digestVersion: int, runDirectory: string, validationId: Option<string>)

  predicate MayBegin(db: Db, id: JobId, operation: Operation)
  {
    && id < |db.jobs| && Running(db.jobs[id].status) && db.jobs[id].targetIdentity.Some?
    && (db.jobs[id].activeAttempt.Some? ==>
          && db.jobs[id].activeAttempt.value < |db.attempts|
          && SuccessfulValidation(db.attempts[db.jobs[id].activeAttempt.value])
          && operation == Deploy)
  }

  function Begin(db: Db, id: JobId, intent: Intent, now: int): Outcome<AttemptId>
  {
    if !MayBegin(db, id, intent.operation) then Refused(INVALID_JOB_STATE)
    else
      var job := db.jobs[id];
      var attempt := Attempt(id, intent.operation, Submitting, intent.validationId, None, job.targetIdentity.value,
                             intent.payloadChecksum, intent.digestVersion, job.dryRunJobId, RemoteUnknown, 1);
      var begun := SetJob(db, id, job.(
        activeAttempt := Some(|db.attempts|), remoteId := None, remoteStatus := RemoteUnknown, evidence := AttemptTracked,
        payloadChecksum := intent.payloadChecksum, runDirectory := Some(intent.runDirectory), updatedAt := now));
      Committed(begun.(attempts := db.attempts + [attempt]), |db.attempts|)
  }

  // The attempt is the active one of a job that is running.
  predicate Live(db: Db, id: JobId, attemptId: AttemptId)
  {
    && id < |db.jobs| && attemptId < |db.attempts| && db.attempts[attemptId].jobId == id
    && db.jobs[id].activeAttempt == Some(attemptId) && Running(db.jobs[id].status)
  }

  function RecordSubmitted(db: Db, id: JobId, attemptId: AttemptId, remoteId: string, now: int): Outcome<()>
  {
    if !Live(db, id, attemptId) || db.attempts[attemptId].state != Submitting then Refused(INVALID_JOB_STATE)
    else
      var a := db.attempts[attemptId];
      var updated := SetAttempt(db, attemptId, WithOwnId(a, remoteId).(
        state := Submitted, remoteStatus := RemoteSubmitted, version := a.version + 1));
      Committed(SetJob(updated, id, db.jobs[id].(
        remoteId := Some(remoteId), remoteStatus := RemoteSubmitted, updatedAt := now)), ())
  }

  datatype Progress = Progress(
    phase: Kind, deploymentId: string, status: string, done: bool, success: Option<bool>, checkOnly: Option<bool>, checkedAt: int)

  predicate SuccessStatus(status: string) { status == "Succeeded" || status == "SucceededPartial" }

  predicate ReportsSuccess(p: Progress) { p.success != Some(false) && SuccessStatus(p.status) }

  // What a progress write records about the remote side of a tracked attempt ...
  function TrackedStatus(p: Progress): RemoteStatus
  {
    if p.done then if ReportsSuccess(p) then RemoteSucceeded else RemoteFailed else RemoteRunning
  }

  // ... and what reconciliation and untracked writes record, by their own rule.
  function ReportedStatus(p: Progress): RemoteStatus
  {
    if p.done then if p.success == Some(false) then RemoteFailed else RemoteSucceeded
    else if p.status == "Queued" || p.status == "Pending" then RemoteSubmitted else RemoteRunning
  }

  predicate AcceptsProgress(a: Attempt, p: Progress)
  {
    && a.state in {Submitting, Submitted}
    && (if a.operation == Validate then DryRun else Deployment) == p.phase
    && (OwnId(a).None? || OwnId(a) == Some(p.deploymentId))
  }

  function RecordProgress(db: Db, id: JobId, attemptId: AttemptId, p: Progress): Outcome<()>
  {
    if !Live(db, id, attemptId) || !AcceptsProgress(db.attempts[attemptId], p) then Refused(INVALID_JOB_STATE)
    else
      var a := db.attempts[attemptId];
      var updated := SetAttempt(db, attemptId, WithOwnId(a, p.deploymentId).(
        state := if p.done then Terminal else Submitted, remoteStatus := TrackedStatus(p), version := a.version + 1));
      Committed(SetJob(updated, id, db.jobs[id].(
        remoteId := Some(p.deploymentId), remoteStatus := TrackedStatus(p), updatedAt := p.checkedAt)), ())
  }

  // Writes of callers that track no attempt.
  predicate UntrackedRunning(db: Db, id: JobId)
  {
    id < |db.jobs| && db.jobs[id].activeAttempt.None? && Running(db.jobs[id].status)
  }

  function RecordUntracked(db: Db, id: JobId, remoteId: string, remoteStatus: RemoteStatus, now: int): Outcome<()>
  {
    if !UntrackedRunning(db, id) then Refused(INVALID_JOB_STATE)
    else Committed(SetJob(db, id, db.jobs[id].(remoteId := Some(remoteId), remoteStatus := remoteStatus, updatedAt := now)), ())
  }

  // ---- Reconciliation ----

  predicate IdInUseElsewhere(db: Db, id: JobId, attemptId: AttemptId, remoteId: string)
  {
    || (exists a: nat :: a < |db.attempts| && a != attemptId
          && (db.attempts[a].validationId == Some(remoteId) || db.attempts[a].deploymentId == Some(remoteId)))
    || (exists j: nat :: j < |db.jobs| && j != id && db.jobs[j].remoteId == Some(remoteId))
  }

  predicate MayBind(db: Db, id: JobId, attemptId: AttemptId, operation: Operation)
  {
    && id < |db.jobs| && attemptId < |db.attempts| && db.attempts[attemptId].jobId == id
    && db.jobs[id].activeAttempt == Some(attemptId) && db.jobs[id].status == ReconcileRequired
    && db.attempts[attemptId].operation == operation && db.attempts[attemptId].state == Submitting
    && OwnId(db.attempts[attemptId]).None?
  }

  // bindForReconciliation: an administrator names the remote id of a submission whose
  // answer was lost.
  function Bind(db: Db, id: JobId, attemptId: AttemptId, operation: Operation, remoteId: string, now: int): Outcome<()>
  {
    if !MayBind(db, id, attemptId, operation) || IdInUseElsewhere(db, id, attemptId, remoteId) then Refused(INVALID_JOB_STATE)
    else
      var a := db.attempts[attemptId];
      var updated := SetAttempt(db, attemptId, WithOwnId(a, remoteId).(
        state := Submitted, remoteStatus := RemoteSubmitted, version := a.version + 1));
      Committed(SetJob(updated, id, db.jobs[id].(
        remoteId := Some(remoteId), remoteStatus := RemoteSubmitted, evidence := ManuallyAttested, updatedAt := now)), ())
  }

  datatype AttemptMark = AttemptMark(id: AttemptId, version: nat)

  // recordReconciliationReport
  function RecordReport(db: Db, id: JobId, mark: Option<AttemptMark>, p: Progress, now: int): Outcome<()>
  {
    if id >= |db.jobs| then Refused(INVALID_ARGUMENT)
    else if db.jobs[id].status != ReconcileRequired
      || (mark.Some? && !CurrentAttempt(db, id, mark.value.id, mark.value.version)) then Refused(INVALID_JOB_STATE)
    else
      var updated := if mark.None? then db else
        SetAttempt(db, mark.value.id, db.attempts[mark.value.id].(
          remoteStatus := ReportedStatus(p), state := if p.done then Terminal else Submitted,
          version := mark.value.version + 1));
      Committed(SetJob(updated, id, db.jobs[id].(
        remoteId := Some(p.deploymentId), remoteStatus := ReportedStatus(p), updatedAt := now)), ())
  }
}
