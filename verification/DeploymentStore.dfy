// The deployment repositories as an object whose tables are updated in place. Every method
// does in one go what its atomic step says; recovery and expiry loop over a listing.
module DeploymentStore {
  import opened Options
  import opened DeploymentModel
  import opened DeploymentSteps
  import opened DeploymentRuns

  datatype Result<+T> = Ok(value: T) | Thrown(error: ErrorCode)

  // The result of a transaction and the tables it leaves.
  ghost predicate Matches<T(!new)>(before: Db, after: Db, o: Outcome<T>, r: Result<T>)
  {
    match o
    case Committed(db, value) => after == db && r == Ok(value)
    case Refused(error) => after == before && r == Thrown(error)
  }

  // ---- What recovery and expiry do to a row ----

  predicate IsInterrupted(job: Job) { job.status == Queued || Running(job.status) }

  function RecoveredRow(job: Job, now: int): Job
  {
    if job.status == Queued then job.(status := Status.Failed, completedAt := Some(now), updatedAt := now)
    else if Running(job.status) then job.(status := ReconcileRequired, completedAt := None, updatedAt := now)
    else job
  }

  predicate IsExpired(job: Job, deadline: int)
  {
    job.status == ValidatedPendingExecution && job.completedAt.GetOr(job.updatedAt) < deadline
  }

  function ExpiredRow(job: Job, deadline: int, now: int): Job
  {
    if IsExpired(job, deadline) then job.(status := Status.Failed, completedAt := Some(now), updatedAt := now) else job
  }

  // `clock(j)` is the time read when job `j` is handled.
  function Recovered(db: Db, clock: JobId -> int): (r: Db)
    ensures |r.jobs| == |db.jobs| && r.attempts == db.attempts && r.approvals == db.approvals
    ensures forall j | 0 <= j < |db.jobs| :: r.jobs[j] == RecoveredRow(db.jobs[j], clock(j))
  {
    db.(jobs := seq(|db.jobs|, j requires 0 <= j < |db.jobs| => RecoveredRow(db.jobs[j], clock(j))))
  }

  function Expired(db: Db, deadline: int, clock: JobId -> int): (r: Db)
    ensures |r.jobs| == |db.jobs| && r.attempts == db.attempts && r.approvals == db.approvals
    ensures forall j | 0 <= j < |db.jobs| :: r.jobs[j] == ExpiredRow(db.jobs[j], deadline, clock(j))
  {
    db.(jobs := seq(|db.jobs|, j requires 0 <= j < |db.jobs| => ExpiredRow(db.jobs[j], deadline, clock(j))))
  }

  // The rows a listing selects, in table order.
  function Listing(jobs: seq<Job>, selected: Job -> bool): (list: seq<JobId>)
    ensures forall k | 0 <= k < |list| :: list[k] < |jobs| && selected(jobs[list[k]])
    ensures forall k, l | 0 <= k < l < |list| :: list[k] < list[l]
    ensures forall j | 0 <= j < |jobs| && selected(jobs[j]) :: j in list
  {
    if jobs == [] then []
    else
      var last := |jobs| - 1;
      Listing(jobs[..last], selected) + (if selected(jobs[last]) then [last] else [])
  }

  // ---- Properties of recovery ----

  // After recovery nothing is queued or running; only jobs that never began a submission
  // were failed, running ones await reconciliation, and a second recovery finds nothing.
  lemma RecoveryIsComplete(db: Db, clock: JobId -> int, again: JobId -> int)
    requires DbInv(db)
    ensures var r := Recovered(db, clock);
      && (forall j | 0 <= j < |r.jobs| :: !IsInterrupted(r.jobs[j]))
      && (forall j | 0 <= j < |r.jobs| && r.jobs[j].status == Status.Failed && db.jobs[j].status != Status.Failed ::
            db.jobs[j].status == Queued && AttemptsOf(r.attempts, j) == [])
      && (forall j | 0 <= j < |r.jobs| :: Running(db.jobs[j].status) <==> r.jobs[j].status == ReconcileRequired && db.jobs[j].status != ReconcileRequired)
      && Recovered(r, again) == r
  {
    var r := Recovered(db, clock);
    forall j | 0 <= j < |r.jobs| && r.jobs[j].status == Status.Failed && db.jobs[j].status != Status.Failed
      ensures db.jobs[j].status == Queued && AttemptsOf(r.attempts, j) == []
    {
      ShapeOfInv(db, j);
      assert JobFine(db, j);
    }
    assert Recovered(r, again).jobs == r.jobs;
  }

  // Recovery and expiry touch exactly these rows, and of them only the status and its times.
  lemma RowsAreTouchedExactly(db: Db, now: int, clock: JobId -> int, j: JobId)
    requires j < |db.jobs|
    ensures var (job, after) := (db.jobs[j], Recovered(db, clock).jobs[j]);
      && (job.status == Queued ==> after == job.(status := Status.Failed, completedAt := Some(clock(j)), updatedAt := clock(j)))
      && (job.status in {DryRunRunning, Deploying} ==>
            after == job.(status := ReconcileRequired, completedAt := None, updatedAt := clock(j)))
      && (job.status !in {Queued, DryRunRunning, Deploying} ==> after == job)
    ensures var (job, after) := (db.jobs[j], Expired(db, now - APPROVAL_TTL_MS, clock).jobs[j]);
      var finished := if job.completedAt.Some? then job.completedAt.value else job.updatedAt;
      if job.status == ValidatedPendingExecution && finished + 1_800_000 < now
      then after == job.(status := Status.Failed, completedAt := Some(clock(j)), updatedAt := clock(j))
      else after == job
  {
  }

  // ---- A loop over a listing, row by row ----

  // The rows in `done` have been rewritten, the others are as they were.
  ghost predicate Rewritten(before: seq<Job>, after: seq<Job>, done: seq<JobId>, row: (Job, int) -> Job, clock: JobId -> int)
  {
    && |after| == |before|
    && (forall j | 0 <= j < |before| && j in done :: after[j] == row(before[j], clock(j)))
    && (forall j | 0 <= j < |before| && j !in done :: after[j] == before[j])
  }

  lemma RewriteNext(before: seq<Job>, after: seq<Job>, list: seq<JobId>, k: nat, row: (Job, int) -> Job, clock: JobId -> int)
    requires k < |list| && list[k] < |before| && (forall i | 0 <= i < k :: list[i] < list[k])
    requires Rewritten(before, after, list[..k], row, clock)
    ensures after[list[k]] == before[list[k]]
    ensures Rewritten(before, after[list[k] := row(before[list[k]], clock(list[k]))], list[..k + 1], row, clock)
  {
    assert list[k] !in list[..k];
    assert list[..k + 1] == list[..k] + [list[k]];
  }

  // ---- The store ----

  class DeploymentStore {
    var jobs: seq<Job>
    var attempts: seq<Attempt>
    var approvals: seq<Approval>

    ghost function Contents(): Db
      reads this
    {
      Db(jobs, attempts, approvals)
    }

    ghost predicate Valid()
      reads this
    {
      DbInv(Contents())
    }

    constructor ()
      ensures Valid() && Contents() == EMPTY
    {
      jobs, attempts, approvals := [], [], [];
    }

    method CreateIdempotentDryRun(input: NewJob, now: int) returns (r: Result<Creation>)
      requires Valid()
      modifies this
      ensures Matches(old(Contents()), Contents(), CreateDryRun(old(Contents()), input, now), r)
      ensures Valid() && Moves(old(Contents()), Contents())
    {
      StepKeeps(Contents(), CallCreateDryRun(input), now);
      if !IsClientRequestId(input.clientRequestId) || !IsChecksum(input.requestHash) || !IsChecksum(input.payloadChecksum) {
        return Thrown(INVALID_ARGUMENT);
      }
      var existing := FindRequest(jobs, DryRun, input.createdBy, input.clientRequestId);
      if existing.Some? {
        if jobs[existing.value].requestHash != Some(input.requestHash) { return Thrown(IDEMPOTENCY_CONFLICT); }
        return Ok(Creation(existing.value, false));
      }
      jobs := jobs + [FreshJob(DryRun, input, now)];
      return Ok(Creation(|jobs| - 1, true));
    }

    method CreateDirect(input: NewJob, confirmed: bool, mayDeploy: bool, now: int) returns (r: Result<Creation>)
      requires Valid()
      modifies this
      ensures Matches(old(Contents()), Contents(), CreateDirectDeployment(old(Contents()), input, confirmed, mayDeploy, now), r)
      ensures Valid() && Moves(old(Contents()), Contents())
    {
      StepKeeps(Contents(), CallCreateDirect(input, confirmed, mayDeploy), now);
      if !confirmed { return Thrown(APPROVAL_DENIED); }
      if !IsClientRequestId(input.clientRequestId) || !IsChecksum(input.requestHash) || !IsChecksum(input.payloadChecksum) {
        return Thrown(INVALID_ARGUMENT);
      }
      var existing := FindRequest(jobs, Deployment, input.createdBy, input.clientRequestId);
      if existing.Some? {
        if jobs[existing.value].requestHash != Some(input.requestHash) { return Thrown(IDEMPOTENCY_CONFLICT); }
        return Ok(Creation(existing.value, false));
      }
      if !mayDeploy { return Thrown(APPROVAL_DENIED); }
      jobs := jobs + [FreshJob(Deployment, input, now)];
      return Ok(Creation(|jobs| - 1, true));
    }

    method ChangeStatus(id: JobId, next: Status, details: Details, now: int) returns (r: Result<()>)
      requires Valid()
      modifies this`jobs
      ensures Matches(old(Contents()), Contents(), Transition(old(Contents()), id, next, details, now), r)
      ensures Valid() && Moves(old(Contents()), Contents())
    {
      StepKeeps(Contents(), CallTransition(id, next, details), now);
      if id >= |jobs| { return Thrown(INVALID_ARGUMENT); }
      var current := jobs[id];
      var decision := Decide(current, next, now, details.completedAt);
      if decision.None? { return Thrown(INVALID_JOB_STATE); }
      if details.attemptId.Some? || details.attemptVersion.Some? {
        if details.attemptId.None? || details.attemptVersion.None? { return Thrown(INVALID_JOB_STATE); }
        var a := details.attemptId.value;
        if a >= |attempts| || attempts[a].jobId != id || current.activeAttempt != Some(a)
          || attempts[a].version != details.attemptVersion.value
        {
          return Thrown(INVALID_JOB_STATE);
        }
      }
      jobs := jobs[id := current.(
        status := decision.value.status,
        startedAt := decision.value.startedAt,
        completedAt := decision.value.completedAt,
        updatedAt := now,
        remoteId := details.remoteId.OrElse(current.remoteId),
        remoteStatus := details.remoteStatus.GetOr(current.remoteStatus))];
      return Ok(());
    }

    method StoreExecutionPlan(id: JobId, mode: ExecutionMode, validationId: Option<string>, now: int) returns (r: Result<()>)
      requires Valid()
      modifies this`jobs
      ensures Matches(old(Contents()), Contents(), RecordExecutionPlan(old(Contents()), id, mode, validationId, now), r)
      ensures Valid() && Moves(old(Contents()), Contents())
    {
      StepKeeps(Contents(), CallPlan(id, mode, validationId), now);
      if id >= |jobs| || jobs[id].kind != Deployment || jobs[id].status != Deploying { return Thrown(INVALID_JOB_STATE); }
      jobs := jobs[id := jobs[id].(executionMode := Some(mode), reusedValidationId := validationId, updatedAt := now)];
      return Ok(());
    }

    method StoreDryRunArtifacts(id: JobId, a: Artifacts, now: int) returns (r: Result<()>)
      requires Valid()
      modifies this`jobs
      ensures Matches(old(Contents()), Contents(), RecordDryRunArtifacts(old(Contents()), id, a, now), r)
      ensures Valid() && Moves(old(Contents()), Contents())
    {
      StepKeeps(Contents(), CallDryRunArtifacts(id, a), now);
      if !IsChecksum(a.payloadChecksum) { return Thrown(INVALID_ARGUMENT); }
      if id >= |jobs| || jobs[id].kind != DryRun || jobs[id].status != DryRunRunning || jobs[id].prepared {
        return Thrown(INVALID_JOB_STATE);
      }
      jobs := jobs[id := WithArtifacts(jobs[id], a, now)];
      return Ok(());
    }

    method StoreDirectArtifacts(id: JobId, a: Artifacts, now: int) returns (r: Result<()>)
      requires Valid()
      modifies this`jobs
      ensures Matches(old(Contents()), Contents(), RecordDirectArtifacts(old(Contents()), id, a, now), r)
      ensures Valid() && Moves(old(Contents()), Contents())
    {
      StepKeeps(Contents(), CallDirectArtifacts(id, a), now);
      if !IsChecksum(a.payloadChecksum) { return Thrown(INVALID_ARGUMENT); }
      if id >= |jobs| || jobs[id].kind != Deployment || jobs[id].dryRunJobId.Some? || jobs[id].status != Deploying {
        return Thrown(INVALID_JOB_STATE);
      }
      jobs := jobs[id := WithArtifacts(jobs[id], a, now)];
      return Ok(());
    }

    method Approve(request: ApprovalRequest, artifacts: Job, now: int) returns (r: Result<JobId>)
      requires Valid()
      modifies this`jobs, this`approvals
      ensures Matches(old(Contents()), Contents(), ApproveAndQueue(old(Contents()), request, artifacts, now), r)
      ensures Valid() && Moves(old(Contents()), Contents())
    {
      StepKeeps(Contents(), CallApprove(request, artifacts), now);
      var obstacle := ApprovalObstacle(Db(jobs, attempts, approvals), request, artifacts, now);
      if obstacle.Some? { return Thrown(obstacle.value); }
      var existing := FindApproval(approvals, request.dryRunJobId);
      if existing.Some? { return Ok(existing.value); }
      var dryRun, id := jobs[request.dryRunJobId], |jobs|;
      jobs := jobs + [ApprovedJob(request.dryRunJobId, dryRun, artifacts, request.approvedBy, now)];
      approvals := approvals + [Approval(request.dryRunJobId, id, request.approvedBy, dryRun.payloadChecksum, dryRun.targetAlias)];
      return Ok(id);
    }

    method BeginAttempt(id: JobId, purpose: Purpose, payloadChecksum: string, digestVersion: int, runDirectory: string, now: int)
      returns (r: Result<AttemptId>)
      requires Valid()
      modifies this`jobs, this`attempts
      ensures Matches(old(Contents()), Contents(), Begin(old(Contents()), id, IntentOf(purpose, payloadChecksum, digestVersion, runDirectory), now), r)
      ensures Valid() && Moves(old(Contents()), Contents())
    {
      StepKeeps(Contents(), CallBegin(id, purpose, payloadChecksum, digestVersion, runDirectory), now);
      var intent := IntentOf(purpose, payloadChecksum, digestVersion, runDirectory);
      if id >= |jobs| || !Running(jobs[id].status) || jobs[id].targetIdentity.None? { return Thrown(INVALID_JOB_STATE); }
      var job, attempt := jobs[id], |attempts|;
      if job.activeAttempt.Some? {
        var previous := job.activeAttempt.value;
        if previous >= |attempts| || !SuccessfulValidation(attempts[previous]) || intent.operation != Deploy {
          return Thrown(INVALID_JOB_STATE);
        }
      }
      attempts := attempts + [Attempt(id, intent.operation, Submitting, intent.validationId, None, job.targetIdentity.value,
        intent.payloadChecksum, intent.digestVersion, job.dryRunJobId, RemoteUnknown, 1)];
      jobs := jobs[id := job.(
        activeAttempt := Some(attempt), remoteId := None, remoteStatus := RemoteUnknown, evidence := AttemptTracked,
        payloadChecksum := intent.payloadChecksum, runDirectory := Some(intent.runDirectory), updatedAt := now)];
      return Ok(attempt);
    }

    method StoreSubmitted(id: JobId, attemptId: AttemptId, remoteId: string, now: int) returns (r: Result<()>)
      requires Valid()
      modifies this`jobs, this`attempts
      ensures Matches(old(Contents()), Contents(), RecordSubmitted(old(Contents()), id, attemptId, remoteId, now), r)
      ensures Valid() && Moves(old(Contents()), Contents())
    {
      StepKeeps(Contents(), CallSubmitted(id, attemptId, remoteId), now);
      if !Live(Db(jobs, attempts, approvals), id, attemptId) || attempts[attemptId].state != Submitting {
        return Thrown(INVALID_JOB_STATE);
      }
      var a := attempts[attemptId];
      attempts := attempts[attemptId := WithOwnId(a, remoteId).(
        state := Submitted, remoteStatus := RemoteSubmitted, version := a.version + 1)];
      jobs := jobs[id := jobs[id].(remoteId := Some(remoteId), remoteStatus := RemoteSubmitted, updatedAt := now)];
      return Ok(());
    }

    method StoreProgress(id: JobId, attemptId: AttemptId, p: Progress) returns (r: Result<()>)
      requires Valid()
      modifies this`jobs, this`attempts
      ensures Matches(old(Contents()), Contents(), RecordProgress(old(Contents()), id, attemptId, p), r)
      ensures Valid() && Moves(old(Contents()), Contents())
    {
      StepKeeps(Contents(), CallProgress(id, attemptId, p), 0);
      if !Live(Db(jobs, attempts, approvals), id, attemptId) || !AcceptsProgress(attempts[attemptId], p) {
        return Thrown(INVALID_JOB_STATE);
      }
      var a, remoteStatus := attempts[attemptId], TrackedStatus(p);
      attempts := attempts[attemptId := WithOwnId(a, p.deploymentId).(
        state := if p.done then Terminal else Submitted, remoteStatus := remoteStatus, version := a.version + 1)];
      jobs := jobs[id := jobs[id].(remoteId := Some(p.deploymentId), remoteStatus := remoteStatus, updatedAt := p.checkedAt)];
      return Ok(());
    }

    method BindForReconciliation(id: JobId, attemptId: AttemptId, operation: Operation, remoteId: string, now: int)
      returns (r: Result<()>)
      requires Valid()
      modifies this`jobs, this`attempts
      ensures Matches(old(Contents()), Contents(), Bind(old(Contents()), id, attemptId, operation, remoteId, now), r)
      ensures Valid() && Moves(old(Contents()), Contents())
    {
      StepKeeps(Contents(), CallBind(id, attemptId, operation, remoteId), now);
      var db := Db(jobs, attempts, approvals);
      if !MayBind(db, id, attemptId, operation) || IdInUseElsewhere(db, id, attemptId, remoteId) { return Thrown(INVALID_JOB_STATE); }
      var a := attempts[attemptId];
      attempts := attempts[attemptId := WithOwnId(a, remoteId).(
        state := Submitted, remoteStatus := RemoteSubmitted, version := a.version + 1)];
      jobs := jobs[id := jobs[id].(
        remoteId := Some(remoteId), remoteStatus := RemoteSubmitted, evidence := ManuallyAttested, updatedAt := now)];
      return Ok(());
    }

    method StoreReport(id: JobId, mark: Option<AttemptMark>, p: Progress, now: int) returns (r: Result<()>)
      requires Valid()
      modifies this`jobs, this`attempts
      ensures Matches(old(Contents()), Contents(), RecordReport(old(Contents()), id, mark, p, now), r)
      ensures Valid() && Moves(old(Contents()), Contents())
    {
      StepKeeps(Contents(), CallReport(id, mark, p), now);
      if id >= |jobs| { return Thrown(INVALID_ARGUMENT); }
      if jobs[id].status != ReconcileRequired { return Thrown(INVALID_JOB_STATE); }
      if mark.Some? {
        if !CurrentAttempt(Db(jobs, attempts, approvals), id, mark.value.id, mark.value.version) { return Thrown(INVALID_JOB_STATE); }
        attempts := attempts[mark.value.id := attempts[mark.value.id].(
          remoteStatus := ReportedStatus(p), state := if p.done then Terminal else Submitted, version := mark.value.version + 1)];
      }
      jobs := jobs[id := jobs[id].(remoteId := Some(p.deploymentId), remoteStatus := ReportedStatus(p), updatedAt := now)];
      return Ok(());
    }

    method RecoverOne(id: JobId, now: int, ghost start: Db)
      requires Valid() && DbInv(start) && Moves(start, Contents())
      requires id < |jobs| && IsInterrupted(jobs[id])
      modifies this`jobs
      ensures jobs == old(jobs)[id := RecoveredRow(old(jobs)[id], now)]
      ensures Valid() && Moves(start, Contents())
    {
      var next := if jobs[id].status == Queued then Status.Failed else ReconcileRequired;
      var r := ChangeStatus(id, next, NO_DETAILS, now);
      MovesTransitive(start, old(Contents()), Contents());
    }

    method ExpireOne(id: JobId, deadline: int, now: int, ghost start: Db)
      requires Valid() && DbInv(start) && Moves(start, Contents())
      requires id < |jobs| && IsExpired(jobs[id], deadline)
      modifies this`jobs
      ensures jobs == old(jobs)[id := ExpiredRow(old(jobs)[id], deadline, now)]
      ensures Valid() && Moves(start, Contents())
    {
      var r := ChangeStatus(id, Status.Failed, NO_DETAILS, now);
      MovesTransitive(start, old(Contents()), Contents());
    }

    // recoverInterruptedJobs: one guarded transition per listed job.
    method RecoverInterruptedJobs(clock: JobId -> int) returns (count: nat)
      requires Valid()
      modifies this`jobs
      ensures Contents() == Recovered(old(Contents()), clock)
      ensures count == |Listing(old(jobs), IsInterrupted)|
      ensures Valid() && Moves(old(Contents()), Contents())
    {
      var interrupted := Listing(jobs, IsInterrupted);
      var k := 0;
      MovesReflexive(Contents());
      while k < |interrupted|
        invariant Valid() && Moves(old(Contents()), Contents())
        invariant k <= |interrupted|
        invariant Rewritten(old(jobs), jobs, interrupted[..k], RecoveredRow, clock)
      {
        RewriteNext(old(jobs), jobs, interrupted, k, RecoveredRow, clock);
        RecoverOne(interrupted[k], clock(interrupted[k]), old(Contents()));
        k := k + 1;
      }
      assert interrupted[..k] == interrupted;
      assert jobs == Recovered(old(Contents()), clock).jobs;
      count := |interrupted|;
    }

    // expireValidatedPendingExecutions
    method ExpireValidatedPendingExecutions(now: int, clock: JobId -> int) returns (count: nat)
      requires Valid()
      modifies this`jobs
      ensures Contents() == Expired(old(Contents()), now - APPROVAL_TTL_MS, clock)
      ensures count == |Listing(old(jobs), job => IsExpired(job, now - APPROVAL_TTL_MS))|
      ensures Valid() && Moves(old(Contents()), Contents())
    {
      var deadline := now - APPROVAL_TTL_MS;
      var expired := Listing(jobs, job => IsExpired(job, deadline));
      var row := (job: Job, time: int) => ExpiredRow(job, deadline, time);
      count := 0;
      MovesReflexive(Contents());
      while count < |expired|
        invariant Valid() && Moves(old(Contents()), Contents())
        invariant count <= |expired|
        invariant Rewritten(old(jobs), jobs, expired[..count], row, clock)
      {
        RewriteNext(old(jobs), jobs, expired, count, row, clock);
        ExpireOne(expired[count], deadline, clock(expired[count]), old(Contents()));
        count := count + 1;
      }
      assert expired[..count] == expired;
      assert jobs == Expired(old(Contents()), deadline, clock).jobs;
    }
  }
}
