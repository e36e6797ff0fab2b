// The rows of the deployment database and the pure status decisions made about them
// (src/deploy/deployment-job-model.ts, src/deploy/deployment-state-machine.ts).
module DeploymentModel {
  import opened Options

  // Rows are never deleted, so a row's position identifies it; the program draws random
  // UUIDs instead, which are taken to be distinct.
  type JobId = nat
  type AttemptId = nat

  datatype Kind = DryRun | Deployment

  datatype Status =
    | Queued
    | DryRunRunning
    | ApprovalPending
    | ValidatedPendingExecution
    | Deploying
    | Succeeded
    | Failed
    | ReconcileRequired

  datatype RemoteStatus =
    | RemoteNotSubmitted
    | RemoteSubmitted
    | RemoteRunning
    | RemoteSucceeded
    | RemoteFailed
    | RemoteUnknown

  datatype Evidence = NotStarted | AttemptTracked | ManuallyAttested

  datatype ExecutionMode = UseQuickDeploy | UseStandardDeploy | RevalidationRequired | ModeReconcileRequired

  datatype OrgIdentity = OrgIdentity(
    alias: string, connectionId: Option<string>, connectionGeneration: Option<int>,
    username: string, orgId: string, instanceUrlHash: Option<string>)

  datatype TestPlan = TestPlan(level: string, selection: string, tests: seq<string>)

  // The fields of a Salesforce report that decisions depend on.
  datatype Report = Report(
    id: Option<string>, status: Option<string>, done: Option<bool>, success: Option<bool>, checkOnly: Option<bool>)

  datatype Job = Job(
    kind: Kind,
    status: Status,
    targetAlias: string,
    payloadChecksum: string,
    payloadDigestVersion: int,
    runDirectory: Option<string>,
    remoteId: Option<string>,
    dryRunJobId: Option<JobId>,
    createdBy: string,
    clientRequestId: Option<string>,
    requestHash: Option<string>,
    createdAt: int,
    updatedAt: int,
    startedAt: Option<int>,
    completedAt: Option<int>,
    prepared: bool,
    testPlan: Option<TestPlan>,
    dryRunResult: Option<Report>,
    remoteStatus: RemoteStatus,
    targetIdentity: Option<OrgIdentity>,
    activeAttempt: Option<AttemptId>,
    evidence: Evidence,
    executionMode: Option<ExecutionMode>,
    reusedValidationId: Option<string>)

  datatype Operation = Validate | Deploy | QuickDeploy

  datatype SubmissionState = NotSubmitted | Submitting | Submitted | Terminal

  datatype Attempt = Attempt(
    jobId: JobId,
    operation: Operation,
    state: SubmissionState,
    validationId: Option<string>,
    deploymentId: Option<string>,
    targetIdentity: OrgIdentity,
    payloadChecksum: string,
    digestVersion: int,
    approvalJobId: Option<JobId>,
    remoteStatus: RemoteStatus,
    version: nat)

  datatype Approval = Approval(
    dryRunJobId: JobId, deployJobId: JobId, approvedBy: string, payloadChecksum: string, targetAlias: string)

  datatype Db = Db(jobs: seq<Job>, attempts: seq<Attempt>, approvals: seq<Approval>)

  datatype ErrorCode = INVALID_ARGUMENT | INVALID_JOB_STATE | APPROVAL_DENIED | PAYLOAD_CHANGED | IDEMPOTENCY_CONFLICT

  // A transaction either commits a new database or throws and leaves it as it was.
  datatype Outcome<+T> = Committed(db: Db, value: T) | Refused(error: ErrorCode)

  const APPROVAL_TTL_MS: int := 30 * 60 * 1_000

  // ---- The status decisions ----

  predicate Allowed(from: Status, to: Status)
  {
    match from
    case Queued => to in {DryRunRunning, Deploying, Failed}
    case DryRunRunning => to in {ApprovalPending, Failed, ReconcileRequired}
    case ApprovalPending => false
    case ValidatedPendingExecution => to == Failed
    case Deploying => to in {Succeeded, Failed, ReconcileRequired}
    case Succeeded => false
    case Failed => false
    case ReconcileRequired => to in {ApprovalPending, ValidatedPendingExecution, Succeeded, Failed}
  }

  predicate Running(s: Status) { s == DryRunRunning || s == Deploying }

  predicate Finished(s: Status) { s in {ApprovalPending, ValidatedPendingExecution, Succeeded, Failed} }

  // Statuses with no way out.
  predicate Closed(s: Status) { s in {ApprovalPending, Succeeded, Failed} }

  datatype Decision = Decision(status: Status, startedAt: Option<int>, completedAt: Option<int>)

  function Decide(job: Job, next: Status, timestamp: int, completedAt: Option<int>): Option<Decision>
  {
    if !Allowed(job.status, next) then None
    else if job.kind == DryRun && next == Deploying then None
    else if job.kind == Deployment && next == DryRunRunning then None
    else Some(Decision(
      next,
      if Running(next) then Some(timestamp) else job.startedAt,
      if Finished(next) then Some(completedAt.GetOr(timestamp)) else None))
  }

  // How far a job still is from a closed status.
  function Rank(s: Status): nat
  {
    match s
    case Queued => 4
    case DryRunRunning => 3
    case Deploying => 3
    case ReconcileRequired => 2
    case ValidatedPendingExecution => 1
    case _ => 0
  }

  // A job is closed exactly when nothing can happen to its status, and every transition
  // brings it closer to that.
  lemma TransitionsLeadToClosed(from: Status, to: Status)
    ensures Allowed(from, to) ==> Rank(to) < Rank(from) <= 4
    ensures Closed(from) <==> forall s :: !Allowed(from, s)
  {
    if !Closed(from) { assert Allowed(from, Failed); }
  }

  // ---- Attempts ----

  // The id Salesforce gave to this submission itself.
  function OwnId(a: Attempt): Option<string>
  {
    if a.operation == Validate then a.validationId else a.deploymentId
  }

  function WithOwnId(a: Attempt, id: string): Attempt
  {
    if a.operation == Validate then a.(validationId := Some(id)) else a.(deploymentId := Some(id))
  }

  predicate SuccessfulValidation(a: Attempt)
  {
    a.operation == Validate && a.state == Terminal && a.remoteStatus == RemoteSucceeded
  }
}
