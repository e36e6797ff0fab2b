// Everything the deployment repositories keep true, whoever calls them in whatever order:
// an invariant of the database, and how rows may change along a run.
module DeploymentRuns {
  import opened Options
  import opened DeploymentModel
  import opened DeploymentSteps

  // ---- Runs: any sequence of repository calls with any arguments ----

  // What an attempt is begun for: only a Quick Deploy brings a validation id along.
  datatype Purpose = ForValidation | ForDeploy | ForQuickDeploy(validationId: string)

  datatype Call =
    | CallCreateDryRun(input: NewJob)
    | CallCreateDirect(input: NewJob, confirmed: bool, mayDeploy: bool)
    | CallTransition(id: JobId, next: Status, details: Details)
    | CallPlan(id: JobId, mode: ExecutionMode, validationId: Option<string>)
    | CallDryRunArtifacts(id: JobId, artifacts: Artifacts)
    | CallDirectArtifacts(id: JobId, artifacts: Artifacts)
    | CallApprove(request: ApprovalRequest, read: Job)
    | CallBegin(id: JobId, purpose: Purpose, payloadChecksum: string, digestVersion: int, runDirectory: string)
    | CallSubmitted(id: JobId, attemptId: AttemptId, remoteId: string)
    | CallProgress(id: JobId, attemptId: AttemptId, progress: Progress)
    | CallUntracked(id: JobId, remoteId: string, remoteStatus: RemoteStatus)
    | CallBind(id: JobId, attemptId: AttemptId, operation: Operation, remoteId: string)
    | CallReport(id: JobId, mark: Option<AttemptMark>, progress: Progress)

  function IntentOf(purpose: Purpose, payloadChecksum: string, digestVersion: int, runDirectory: string): Intent
  {
    match purpose
    case ForValidation => Intent(Validate, payloadChecksum, digestVersion, runDirectory, None)
    case ForDeploy => Intent(Deploy, payloadChecksum, digestVersion, runDirectory, None)
    case ForQuickDeploy(v) => Intent(QuickDeploy, payloadChecksum, digestVersion, runDirectory, Some(v))
  }

  function Kept<T>(db: Db, o: Outcome<T>): Db
  {
    if o.Committed? then o.db else db
  }

  function Apply(db: Db, c: Call, now: int): Db
  {
    match c
    case CallCreateDryRun(input) => Kept(db, CreateDryRun(db, input, now))
    case CallCreateDirect(input, confirmed, mayDeploy) => Kept(db, CreateDirectDeployment(db, input, confirmed, mayDeploy, now))
    case CallTransition(id, next, details) => Kept(db, Transition(db, id, next, details, now))
    case CallPlan(id, mode, v) => Kept(db, RecordExecutionPlan(db, id, mode, v, now))
    case CallDryRunArtifacts(id, a) => Kept(db, RecordDryRunArtifacts(db, id, a, now))
    case CallDirectArtifacts(id, a) => Kept(db, RecordDirectArtifacts(db, id, a, now))
    case CallApprove(request, read) => Kept(db, ApproveAndQueue(db, request, read, now))
    case CallBegin(id, purpose, sum, digest, dir) => Kept(db, Begin(db, id, IntentOf(purpose, sum, digest, dir), now))
    case CallSubmitted(id, a, r) => Kept(db, RecordSubmitted(db, id, a, r, now))
    case CallProgress(id, a, p) => Kept(db, RecordProgress(db, id, a, p))
    case CallUntracked(id, r, s) => Kept(db, RecordUntracked(db, id, r, s, now))
    case CallBind(id, a, op, r) => Kept(db, Bind(db, id, a, op, r, now))
    case CallReport(id, mark, p) => Kept(db, RecordReport(db, id, mark, p, now))
  }

  datatype TimedCall = At(now: int, call: Call)

  const EMPTY: Db := Db([], [], [])

  function Run(db: Db, calls: seq<TimedCall>): Db
  {
    if calls == [] then db
    else
      var last := |calls| - 1;
      Apply(Run(db, calls[..last]), calls[last].call, calls[last].now)
  }

  // ---- The invariant ----

  ghost predicate JobFine(db: Db, j: JobId)
    requires j < |db.jobs|
  {
    var job := db.jobs[j];
    && RowFine(job)
    && (job.activeAttempt.Some? ==> job.activeAttempt.value < |db.attempts| && db.attempts[job.activeAttempt.value].jobId == j)
  }

  ghost predicate RowFine(job: Job)
  {
    && (job.status == Queued ==> job.activeAttempt.None?)
    && (job.completedAt.Some? <==> Finished(job.status))
    && (job.kind == DryRun ==> job.status != Deploying && job.dryRunJobId.None?)
    && (job.kind == Deployment ==> job.status != DryRunRunning)
    && (job.prepared && job.kind == DryRun ==> job.payloadDigestVersion == 2)
  }

  ghost predicate AttemptFine(db: Db, a: AttemptId)
    requires a < |db.attempts|
  {
    var attempt := db.attempts[a];
    && attempt.jobId < |db.jobs| && db.jobs[attempt.jobId].activeAttempt.Some?
    && attempt.version >= 1
    && attempt.state != NotSubmitted
    && (attempt.state == Submitting ==> OwnId(attempt).None?)
    && db.jobs[attempt.jobId].targetIdentity == Some(attempt.targetIdentity)
    && attempt.approvalJobId == db.jobs[attempt.jobId].dryRunJobId
    && (attempt.operation == Validate ==> attempt.deploymentId.None?)
  }

  // Of two attempts of one job the first is a validation that ended in success, and the
  // second is the deploy that is the job's active attempt.
  ghost predicate PairFine(db: Db, a: AttemptId, b: AttemptId)
    requires a < b < |db.attempts|
  {
    db.attempts[a].jobId == db.attempts[b].jobId && db.attempts[a].jobId < |db.jobs| ==>
      && SuccessfulValidation(db.attempts[a])
      && db.attempts[b].operation == Deploy
      && db.jobs[db.attempts[b].jobId].activeAttempt == Some(b)
  }

  // An approval names an approved, prepared dry run and the one job it queued.
  ghost predicate ApprovalFine(db: Db, p: nat)
    requires p < |db.approvals|
  {
    var approval := db.approvals[p];
    && approval.dryRunJobId < approval.deployJobId < |db.jobs|
    && db.jobs[approval.deployJobId].kind == Deployment
    && db.jobs[approval.deployJobId].dryRunJobId == Some(approval.dryRunJobId)
    && (var dryRun := db.jobs[approval.dryRunJobId];
        && dryRun.kind == DryRun && dryRun.status == ApprovalPending && dryRun.prepared && dryRun.payloadDigestVersion == 2
        && dryRun.payloadChecksum == approval.payloadChecksum && dryRun.targetAlias == approval.targetAlias
        && dryRun.targetIdentity.Some?
        && db.jobs[approval.deployJobId].targetIdentity == dryRun.targetIdentity
        && db.jobs[approval.deployJobId].targetAlias == dryRun.targetAlias)
  }

  ghost predicate ApprovalsDistinct(db: Db)
  {
    forall p, q | 0 <= p < q < |db.approvals| ::
      db.approvals[p].dryRunJobId != db.approvals[q].dryRunJobId && db.approvals[p].deployJobId != db.approvals[q].deployJobId
  }

  ghost predicate HasApproval(db: Db, j: JobId, d: JobId)
  {
    exists p :: 0 <= p < |db.approvals| && db.approvals[p].deployJobId == j && db.approvals[p].dryRunJobId == d
  }

  ghost predicate ApprovedJobsListed(db: Db)
  {
    forall j | 0 <= j < |db.jobs| && db.jobs[j].dryRunJobId.Some? :: HasApproval(db, j, db.jobs[j].dryRunJobId.value)
  }

  // One job per (kind, user, Idempotency-Key).
  ghost predicate RequestsDistinct(db: Db)
  {
    forall i, j | 0 <= i < j < |db.jobs| && db.jobs[i].clientRequestId.Some? ::
      !SameRequest(db.jobs[j], db.jobs[i].kind, db.jobs[i].createdBy, db.jobs[i].clientRequestId.value)
      || db.jobs[i].dryRunJobId.Some?
  }

  ghost predicate DbInv(db: Db)
  {
    && (forall j | 0 <= j < |db.jobs| :: JobFine(db, j))
    && (forall a | 0 <= a < |db.attempts| :: AttemptFine(db, a))
    && (forall a, b | 0 <= a < b < |db.attempts| :: PairFine(db, a, b))
    && (forall p | 0 <= p < |db.approvals| :: ApprovalFine(db, p))
    && ApprovalsDistinct(db) && ApprovedJobsListed(db) && RequestsDistinct(db)
  }

  // ---- How rows change ----

  // What no step ever changes about a job, and in which direction the rest moves.
  ghost predicate JobMoves(before: Job, after: Job)
  {
    && after.kind == before.kind && after.targetAlias == before.targetAlias && after.targetIdentity == before.targetIdentity
    && after.dryRunJobId == before.dryRunJobId && after.createdBy == before.createdBy && after.createdAt == before.createdAt
    && after.clientRequestId == before.clientRequestId && after.requestHash == before.requestHash
    && (after.status != before.status ==> Rank(after.status) < Rank(before.status))
    && (before.prepared ==> after.prepared)
    && (Rank(before.status) <= Rank(ReconcileRequired) ==> after.activeAttempt == before.activeAttempt)
    && (before.activeAttempt.Some? ==> after.activeAttempt.Some? && before.activeAttempt.value <= after.activeAttempt.value)
    && (Closed(before.status) ==> after == before)
  }

  ghost predicate AttemptMoves(before: Attempt, after: Attempt)
  {
    && after.jobId == before.jobId && after.operation == before.operation && after.targetIdentity == before.targetIdentity
    && after.payloadChecksum == before.payloadChecksum && after.digestVersion == before.digestVersion
    && after.approvalJobId == before.approvalJobId
    && before.version <= after.version && (after.version == before.version ==> after == before)
    && (OwnId(before).Some? ==> OwnId(after) == OwnId(before))
    && (before.operation != Validate ==> after.validationId == before.validationId)
  }

  // Attempts that have been superseded, or whose job is closed, are never written again.
  ghost predicate AttemptStays(db: Db, a: AttemptId)
    requires a < |db.attempts|
  {
    var j := db.attempts[a].jobId;
    j < |db.jobs| && (db.jobs[j].activeAttempt != Some(a) || Closed(db.jobs[j].status))
  }

  ghost predicate Moves(db: Db, db': Db)
  {
    && |db.jobs| <= |db'.jobs| && |db.attempts| <= |db'.attempts| && db.approvals <= db'.approvals
    && (forall j | 0 <= j < |db.jobs| :: JobMoves(db.jobs[j], db'.jobs[j]))
    && (forall a | 0 <= a < |db.attempts| :: AttemptMoves(db.attempts[a], db'.attempts[a]))
    && (forall a | 0 <= a < |db.attempts| && AttemptStays(db, a) :: db'.attempts[a] == db.attempts[a])
  }

  lemma MovesReflexive(db: Db)
    ensures Moves(db, db)
  {
  }

  // A superseded attempt never becomes the active one again.
  lemma ActiveIsLast(db: Db, a: AttemptId)
    requires DbInv(db) && a < |db.attempts|
    ensures db.attempts[a].jobId < |db.jobs|
    ensures db.jobs[db.attempts[a].jobId].activeAttempt.Some? && a <= db.jobs[db.attempts[a].jobId].activeAttempt.value
  {
    var j := db.attempts[a].jobId;
    assert AttemptFine(db, a) && JobFine(db, j);
    var b := db.jobs[j].activeAttempt.value;
    assert b >= a || PairFine(db, b, a);
  }

  lemma StaysStay(d0: Db, d1: Db, a: AttemptId)
    requires DbInv(d0) && Moves(d0, d1) && a < |d0.attempts| && AttemptStays(d0, a)
    ensures AttemptStays(d1, a)
  {
    ActiveIsLast(d0, a);
    var j := d0.attempts[a].jobId;
    assert JobMoves(d0.jobs[j], d1.jobs[j]);
    assert AttemptMoves(d0.attempts[a], d1.attempts[a]);
  }

  lemma JobMovesTransitive(a: Job, b: Job, c: Job)
    requires JobMoves(a, b) && JobMoves(b, c)
    ensures JobMoves(a, c)
  {
  }

  lemma MovesTransitive(d0: Db, d1: Db, d2: Db)
    requires DbInv(d0) && Moves(d0, d1) && Moves(d1, d2)
    ensures Moves(d0, d2)
  {
    forall j | 0 <= j < |d0.jobs| ensures JobMoves(d0.jobs[j], d2.jobs[j]) {
      JobMovesTransitive(d0.jobs[j], d1.jobs[j], d2.jobs[j]);
    }
    forall a | 0 <= a < |d0.attempts|
      ensures AttemptMoves(d0.attempts[a], d2.attempts[a])
      ensures AttemptStays(d0, a) ==> d2.attempts[a] == d0.attempts[a]
    {
      assert AttemptMoves(d0.attempts[a], d1.attempts[a]) && AttemptMoves(d1.attempts[a], d2.attempts[a]);
      if AttemptStays(d0, a) { StaysStay(d0, d1, a); }
    }
  }

  // ---- The shapes of a step ----

  ghost predicate Keeps(db: Db, db': Db)
  {
    DbInv(db') && Moves(db, db')
  }

  // A job row is rewritten in place.
  lemma RewriteJob(db: Db, id: JobId, job: Job)
    requires DbInv(db) && id < |db.jobs|
    requires JobMoves(db.jobs[id], job) && RowFine(job) && job.activeAttempt == db.jobs[id].activeAttempt
    ensures Keeps(db, SetJob(db, id, job))
  {
    var db' := SetJob(db, id, job);
    forall j | 0 <= j < |db'.jobs| ensures JobFine(db', j) && JobMoves(db.jobs[j], db'.jobs[j]) {
      assert JobFine(db, j);
    }
    forall a | 0 <= a < |db'.attempts| ensures AttemptFine(db', a) {
      assert AttemptFine(db, a);
    }
    forall a, b | 0 <= a < b < |db'.attempts| ensures PairFine(db', a, b) {
      assert PairFine(db, a, b);
    }
    forall p | 0 <= p < |db'.approvals| ensures ApprovalFine(db', p) {
      assert ApprovalFine(db, p);
    }
    KeysKept(db, db');
  }

  // Approval links and request keys depend only on columns that never change.
  lemma KeysKept(db: Db, db': Db)
    requires ApprovedJobsListed(db) && RequestsDistinct(db) && db'.approvals == db.approvals && |db'.jobs| == |db.jobs|
    requires forall j | 0 <= j < |db.jobs| :: JobMoves(db.jobs[j], db'.jobs[j])
    ensures ApprovedJobsListed(db') && RequestsDistinct(db')
  {
    forall j | 0 <= j < |db'.jobs| && db'.jobs[j].dryRunJobId.Some?
      ensures HasApproval(db', j, db'.jobs[j].dryRunJobId.value)
    {
      assert HasApproval(db, j, db.jobs[j].dryRunJobId.value);
    }
    forall i, j | 0 <= i < j < |db'.jobs| && db'.jobs[i].clientRequestId.Some?
      ensures !SameRequest(db'.jobs[j], db'.jobs[i].kind, db'.jobs[i].createdBy, db'.jobs[i].clientRequestId.value)
        || db'.jobs[i].dryRunJobId.Some?
    {
      assert JobMoves(db.jobs[i], db'.jobs[i]) && JobMoves(db.jobs[j], db'.jobs[j]);
    }
  }

  // The active attempt of a job that is not closed is rewritten.
  lemma RewriteAttempt(db: Db, a: AttemptId, attempt: Attempt)
    requires DbInv(db) && a < |db.attempts|
    requires AttemptMoves(db.attempts[a], attempt) && attempt.version > db.attempts[a].version
    requires attempt.state != NotSubmitted && (attempt.state == Submitting ==> OwnId(attempt).None?)
    requires attempt.operation == Validate ==> attempt.deploymentId.None?
    requires db.attempts[a].jobId < |db.jobs|
    requires db.jobs[db.attempts[a].jobId].activeAttempt == Some(a) && !Closed(db.jobs[db.attempts[a].jobId].status)
    ensures Keeps(db, SetAttempt(db, a, attempt))
  {
    var db' := SetAttempt(db, a, attempt);
    assert AttemptFine(db, a);
    forall b | 0 <= b < |db'.attempts| ensures AttemptFine(db', b) && AttemptMoves(db.attempts[b], db'.attempts[b]) {
      assert AttemptFine(db, b);
    }
    forall j | 0 <= j < |db'.jobs| ensures JobFine(db', j) {
      assert JobFine(db, j);
    }
    forall b, c | 0 <= b < c < |db'.attempts| ensures PairFine(db', b, c) {
      assert PairFine(db, b, c);
    }
    forall p | 0 <= p < |db'.approvals| ensures ApprovalFine(db', p) {
      assert ApprovalFine(db, p);
    }
    KeysKept(db, db');
  }

  lemma RewriteBoth(db: Db, a: AttemptId, attempt: Attempt, id: JobId, job: Job)
    requires DbInv(db) && a < |db.attempts| && id == db.attempts[a].jobId && id < |db.jobs|
    requires AttemptMoves(db.attempts[a], attempt) && attempt.version > db.attempts[a].version
    requires attempt.state != NotSubmitted && (attempt.state == Submitting ==> OwnId(attempt).None?)
    requires attempt.operation == Validate ==> attempt.deploymentId.None?
    requires db.jobs[id].activeAttempt == Some(a) && !Closed(db.jobs[id].status)
    requires JobMoves(db.jobs[id], job) && RowFine(job) && job.activeAttempt == db.jobs[id].activeAttempt
    ensures Keeps(db, SetJob(SetAttempt(db, a, attempt), id, job))
  {
    RewriteAttempt(db, a, attempt);
    RewriteJob(SetAttempt(db, a, attempt), id, job);
    MovesTransitive(db, SetAttempt(db, a, attempt), SetJob(SetAttempt(db, a, attempt), id, job));
  }

  lemma AppendRequest(db: Db, kind: Kind, input: NewJob, now: int)
    requires DbInv(db) && FindRequest(db.jobs, kind, input.createdBy, input.clientRequestId).None?
    ensures Keeps(db, db.(jobs := db.jobs + [FreshJob(kind, input, now)]))
  {
    var db' := db.(jobs := db.jobs + [FreshJob(kind, input, now)]);
    OldRowsFine(db, db');
    assert JobFine(db', |db.jobs|);
    forall j | 0 <= j < |db'.jobs| && db'.jobs[j].dryRunJobId.Some?
      ensures HasApproval(db', j, db'.jobs[j].dryRunJobId.value)
    {
      assert HasApproval(db, j, db.jobs[j].dryRunJobId.value);
    }
    forall i, j | 0 <= i < j < |db'.jobs| && db'.jobs[i].clientRequestId.Some?
      ensures !SameRequest(db'.jobs[j], db'.jobs[i].kind, db'.jobs[i].createdBy, db'.jobs[i].clientRequestId.value)
        || db'.jobs[i].dryRunJobId.Some?
    {
      if j == |db.jobs| { assert !SameRequest(db.jobs[i], kind, input.createdBy, input.clientRequestId); }
    }
  }

  // Appending a job (and perhaps its approval) leaves the rows already there fine.
  lemma OldRowsFine(db: Db, db': Db)
    requires DbInv(db) && |db'.jobs| > |db.jobs| && db'.jobs[..|db.jobs|] == db.jobs
    requires db'.attempts == db.attempts && db.approvals <= db'.approvals
    ensures Moves(db, db')
    ensures forall j | 0 <= j < |db.jobs| :: JobFine(db', j)
    ensures forall a | 0 <= a < |db'.attempts| :: AttemptFine(db', a)
    ensures forall a, b | 0 <= a < b < |db'.attempts| :: PairFine(db', a, b)
    ensures forall p | 0 <= p < |db.approvals| :: ApprovalFine(db', p)
  {
    assert forall j | 0 <= j < |db.jobs| :: db'.jobs[j] == db'.jobs[..|db.jobs|][j] == db.jobs[j];
    forall j | 0 <= j < |db.jobs| ensures JobFine(db', j) { assert JobFine(db, j); }
    forall a | 0 <= a < |db'.attempts| ensures AttemptFine(db', a) { assert AttemptFine(db, a); }
    forall a, b | 0 <= a < b < |db'.attempts| ensures PairFine(db', a, b) {
      assert PairFine(db, a, b) && AttemptFine(db, a) && AttemptFine(db, b);
    }
    forall p | 0 <= p < |db.approvals| ensures ApprovalFine(db', p) { assert ApprovalFine(db, p); }
  }

  lemma ListedWithNewApproval(db: Db, db': Db, d: JobId)
    requires ApprovedJobsListed(db) && db.approvals <= db'.approvals && |db'.approvals| == |db.approvals| + 1
    requires |db'.jobs| == |db.jobs| + 1 && db'.jobs[..|db.jobs|] == db.jobs
    requires db'.jobs[|db.jobs|].dryRunJobId == Some(d)
    requires db'.approvals[|db.approvals|].deployJobId == |db.jobs| && db'.approvals[|db.approvals|].dryRunJobId == d
    ensures ApprovedJobsListed(db')
  {
    forall j | 0 <= j < |db'.jobs| && db'.jobs[j].dryRunJobId.Some?
      ensures HasApproval(db', j, db'.jobs[j].dryRunJobId.value)
    {
      if j < |db.jobs| {
        assert db'.jobs[j] == db'.jobs[..|db.jobs|][j];
        assert HasApproval(db, j, db.jobs[j].dryRunJobId.value);
        var p :| 0 <= p < |db.approvals| && db.approvals[p].deployJobId == j && db.approvals[p].dryRunJobId == db.jobs[j].dryRunJobId.value;
        assert db'.approvals[p] == db.approvals[p];
      }
    }
  }

  lemma DistinctWithNewApproval(db: Db, db': Db, d: JobId)
    requires DbInv(db) && FindApproval(db.approvals, d).None? && |db'.approvals| == |db.approvals| + 1
    requires db.approvals <= db'.approvals && db'.approvals[|db.approvals|].dryRunJobId == d
    requires db'.approvals[|db.approvals|].deployJobId == |db.jobs|
    ensures ApprovalsDistinct(db')
  {
    forall p, q | 0 <= p < q < |db'.approvals|
      ensures db'.approvals[p].dryRunJobId != db'.approvals[q].dryRunJobId
        && db'.approvals[p].deployJobId != db'.approvals[q].deployJobId
    {
      assert ApprovalFine(db, p);
      assert db.approvals[p] in db.approvals;
    }
  }

  lemma AppendApproval(db: Db, request: ApprovalRequest, read: Job, now: int)
    requires DbInv(db) && ApprovalObstacle(db, request, read, now).None?
    requires FindApproval(db.approvals, request.dryRunJobId).None?
    ensures Keeps(db, ApproveAndQueue(db, request, read, now).db)
  {
    var db' := ApproveAndQueue(db, request, read, now).db;
    var d, n := request.dryRunJobId, |db.jobs|;
    OldRowsFine(db, db');
    assert db'.jobs[n] == ApprovedJob(d, db.jobs[d], read, request.approvedBy, now);
    assert JobFine(db', n) && JobFine(db, d);
    assert ApprovalFine(db', |db.approvals|);
    DistinctWithNewApproval(db, db', d);
    ListedWithNewApproval(db, db', d);
  }

  // When a job whose active attempt is a validation begins again, it has no other attempt.
  lemma OnlyValidationBefore(db: Db, a: AttemptId, id: JobId)
    requires DbInv(db) && a < |db.attempts| && db.attempts[a].jobId == id && id < |db.jobs|
    requires db.jobs[id].activeAttempt.Some? && db.jobs[id].activeAttempt.value < |db.attempts|
    requires SuccessfulValidation(db.attempts[db.jobs[id].activeAttempt.value])
    ensures db.jobs[id].activeAttempt == Some(a)
  {
    assert JobFine(db, id);
    ActiveIsLast(db, a);
    var b := db.jobs[id].activeAttempt.value;
    assert a >= b || PairFine(db, a, b);
  }

  // A job row that has just begun the attempt `n`.
  ghost predicate BegunRow(before: Job, after: Job, n: AttemptId)
  {
    JobMoves(before, after) && RowFine(after) && Running(after.status) && after.activeAttempt == Some(n)
  }

  ghost predicate NewAttempt(db: Db, id: JobId, attempt: Attempt)
    requires id < |db.jobs|
  {
    && attempt.jobId == id && attempt.version == 1 && attempt.state == Submitting && OwnId(attempt).None?
    && db.jobs[id].targetIdentity == Some(attempt.targetIdentity) && attempt.approvalJobId == db.jobs[id].dryRunJobId
    && attempt.deploymentId.None?
  }

  lemma PairsWithNewAttempt(db: Db, id: JobId, attempt: Attempt, job: Job)
    requires DbInv(db) && MayBegin(db, id, attempt.operation) && NewAttempt(db, id, attempt)
    requires BegunRow(db.jobs[id], job, |db.attempts|)
    ensures var db' := SetJob(db, id, job).(attempts := db.attempts + [attempt]);
      forall a, b | 0 <= a < b < |db'.attempts| :: PairFine(db', a, b)
  {
    var db' := SetJob(db, id, job).(attempts := db.attempts + [attempt]);
    forall a, b | 0 <= a < b < |db'.attempts| ensures PairFine(db', a, b) {
      assert AttemptFine(db, a);
      if b < |db.attempts| {
        assert PairFine(db, a, b) && AttemptFine(db, b);
        if db.attempts[a].jobId == id && db.attempts[b].jobId == id {
          OnlyValidationBefore(db, a, id);
        }
      } else if db.attempts[a].jobId == id {
        OnlyValidationBefore(db, a, id);
      }
    }
  }

  lemma AppendAttempt(db: Db, id: JobId, attempt: Attempt, job: Job)
    requires DbInv(db) && MayBegin(db, id, attempt.operation) && NewAttempt(db, id, attempt)
    requires BegunRow(db.jobs[id], job, |db.attempts|)
    ensures Keeps(db, SetJob(db, id, job).(attempts := db.attempts + [attempt]))
  {
    var db' := SetJob(db, id, job).(attempts := db.attempts + [attempt]);
    forall j | 0 <= j < |db'.jobs| ensures JobFine(db', j) && JobMoves(db.jobs[j], db'.jobs[j]) { assert JobFine(db, j); }
    forall a | 0 <= a < |db'.attempts| ensures AttemptFine(db', a) {
      if a < |db.attempts| { assert AttemptFine(db, a); }
    }
    PairsWithNewAttempt(db, id, attempt, job);
    forall p | 0 <= p < |db'.approvals| ensures ApprovalFine(db', p) { assert ApprovalFine(db, p); }
    KeysKept(db, db');
  }

  // ---- Every step keeps the invariant ----

  lemma CreationKeeps(db: Db, kind: Kind, input: NewJob, allowed: bool, now: int)
    requires DbInv(db)
    ensures Keeps(db, Kept(db, CreateOnce(db, kind, input, allowed, now)))
  {
    MovesReflexive(db);
    if FindRequest(db.jobs, kind, input.createdBy, input.clientRequestId).None? {
      AppendRequest(db, kind, input, now);
    }
  }

  lemma TransitionKeeps(db: Db, id: JobId, next: Status, details: Details, now: int)
    requires DbInv(db)
    ensures Keeps(db, Kept(db, Transition(db, id, next, details, now)))
  {
    MovesReflexive(db);
    var o := Transition(db, id, next, details, now);
    if o.Committed? {
      assert JobFine(db, id);
      TransitionsLeadToClosed(db.jobs[id].status, next);
      RewriteJob(db, id, o.db.jobs[id]);
    }
  }

  lemma PlanKeeps(db: Db, id: JobId, mode: ExecutionMode, v: Option<string>, now: int)
    requires DbInv(db)
    ensures Keeps(db, Kept(db, RecordExecutionPlan(db, id, mode, v, now)))
  {
    MovesReflexive(db);
    var o := RecordExecutionPlan(db, id, mode, v, now);
    if o.Committed? {
      assert JobFine(db, id);
      RewriteJob(db, id, o.db.jobs[id]);
    }
  }

  lemma ArtifactsKeep(db: Db, id: JobId, a: Artifacts, now: int)
    requires DbInv(db)
    ensures Keeps(db, Kept(db, RecordDryRunArtifacts(db, id, a, now)))
    ensures Keeps(db, Kept(db, RecordDirectArtifacts(db, id, a, now)))
  {
    MovesReflexive(db);
    if id < |db.jobs| && Running(db.jobs[id].status) {
      assert JobFine(db, id);
      RewriteJob(db, id, WithArtifacts(db.jobs[id], a, now));
    }
  }

  lemma ApproveKeeps(db: Db, request: ApprovalRequest, read: Job, now: int)
    requires DbInv(db)
    ensures Keeps(db, Kept(db, ApproveAndQueue(db, request, read, now)))
  {
    MovesReflexive(db);
    if ApprovalObstacle(db, request, read, now).None? && FindApproval(db.approvals, request.dryRunJobId).None? {
      AppendApproval(db, request, read, now);
    }
  }

  // Whatever intent is stored, the invariant is kept unless a validation is begun with an id.
  lemma BeginKeepsExactly(db: Db, id: JobId, intent: Intent, now: int)
    requires DbInv(db) && Begin(db, id, intent, now).Committed?
    ensures Keeps(db, Begin(db, id, intent, now).db) <==> !(intent.operation == Validate && intent.validationId.Some?)
  {
    assert JobFine(db, id);
    var db' := Begin(db, id, intent, now).db;
    if intent.operation == Validate && intent.validationId.Some? {
      assert DbInv(db') ==> AttemptFine(db', |db.attempts|);
    } else {
      AppendAttempt(db, id, db'.attempts[|db.attempts|], db'.jobs[id]);
    }
  }

  lemma BeginKeeps(db: Db, id: JobId, purpose: Purpose, sum: string, digest: int, dir: string, now: int)
    requires DbInv(db)
    ensures Keeps(db, Kept(db, Begin(db, id, IntentOf(purpose, sum, digest, dir), now)))
  {
    MovesReflexive(db);
    var intent := IntentOf(purpose, sum, digest, dir);
    if Begin(db, id, intent, now).Committed? { BeginKeepsExactly(db, id, intent, now); }
  }

  lemma SubmittedKeeps(db: Db, id: JobId, a: AttemptId, remoteId: string, now: int)
    requires DbInv(db)
    ensures Keeps(db, Kept(db, RecordSubmitted(db, id, a, remoteId, now)))
  {
    MovesReflexive(db);
    var o := RecordSubmitted(db, id, a, remoteId, now);
    if o.Committed? {
      assert JobFine(db, id) && AttemptFine(db, a);
      RewriteBoth(db, a, o.db.attempts[a], id, o.db.jobs[id]);
    }
  }

  lemma ProgressKeeps(db: Db, id: JobId, a: AttemptId, p: Progress)
    requires DbInv(db)
    ensures Keeps(db, Kept(db, RecordProgress(db, id, a, p)))
  {
    MovesReflexive(db);
    var o := RecordProgress(db, id, a, p);
    if o.Committed? {
      assert JobFine(db, id) && AttemptFine(db, a);
      RewriteBoth(db, a, o.db.attempts[a], id, o.db.jobs[id]);
    }
  }

  lemma UntrackedKeeps(db: Db, id: JobId, remoteId: string, remoteStatus: RemoteStatus, now: int)
    requires DbInv(db)
    ensures Keeps(db, Kept(db, RecordUntracked(db, id, remoteId, remoteStatus, now)))
  {
    MovesReflexive(db);
    var o := RecordUntracked(db, id, remoteId, remoteStatus, now);
    if o.Committed? {
      assert JobFine(db, id);
      RewriteJob(db, id, o.db.jobs[id]);
    }
  }

  lemma BindKeeps(db: Db, id: JobId, a: AttemptId, op: Operation, remoteId: string, now: int)
    requires DbInv(db)
    ensures Keeps(db, Kept(db, Bind(db, id, a, op, remoteId, now)))
  {
    MovesReflexive(db);
    var o := Bind(db, id, a, op, remoteId, now);
    if o.Committed? {
      assert JobFine(db, id) && AttemptFine(db, a);
      RewriteBoth(db, a, o.db.attempts[a], id, o.db.jobs[id]);
    }
  }

  lemma ReportKeeps(db: Db, id: JobId, mark: Option<AttemptMark>, p: Progress, now: int)
    requires DbInv(db)
    ensures Keeps(db, Kept(db, RecordReport(db, id, mark, p, now)))
  {
    MovesReflexive(db);
    var o := RecordReport(db, id, mark, p, now);
    if o.Committed? {
      assert JobFine(db, id);
      if mark.Some? {
        assert AttemptFine(db, mark.value.id);
        RewriteBoth(db, mark.value.id, o.db.attempts[mark.value.id], id, o.db.jobs[id]);
      } else {
        RewriteJob(db, id, o.db.jobs[id]);
      }
    }
  }

  lemma StepKeeps(db: Db, c: Call, now: int)
    requires DbInv(db)
    ensures Keeps(db, Apply(db, c, now))
  {
    MovesReflexive(db);
    match c
    case CallCreateDryRun(input) => CreationKeeps(db, DryRun, input, true, now);
    case CallCreateDirect(input, confirmed, mayDeploy) => CreationKeeps(db, Deployment, input, mayDeploy, now);
    case CallTransition(id, next, details) => TransitionKeeps(db, id, next, details, now);
    case CallPlan(id, mode, v) => PlanKeeps(db, id, mode, v, now);
    case CallDryRunArtifacts(id, a) => ArtifactsKeep(db, id, a, now);
    case CallDirectArtifacts(id, a) => ArtifactsKeep(db, id, a, now);
    case CallApprove(request, read) => ApproveKeeps(db, request, read, now);
    case CallBegin(id, purpose, sum, digest, dir) => BeginKeeps(db, id, purpose, sum, digest, dir, now);
    case CallSubmitted(id, a, r) => SubmittedKeeps(db, id, a, r, now);
    case CallProgress(id, a, p) => ProgressKeeps(db, id, a, p);
    case CallUntracked(id, r, s) => UntrackedKeeps(db, id, r, s, now);
    case CallBind(id, a, op, r) => BindKeeps(db, id, a, op, r, now);
    case CallReport(id, mark, p) => ReportKeeps(db, id, mark, p, now);
  }

  lemma {:induction false} RunKeeps(db: Db, calls: seq<TimedCall>)
    requires DbInv(db)
    ensures Keeps(db, Run(db, calls))
  {
    if calls == [] {
      MovesReflexive(db);
    } else {
      var last := |calls| - 1;
      RunKeeps(db, calls[..last]);
      StepKeeps(Run(db, calls[..last]), calls[last].call, calls[last].now);
      MovesTransitive(db, Run(db, calls[..last]), Run(db, calls));
    }
  }

  // ---- What every run guarantees ----

  // Some run of repository calls leads from one database to the other ...
  ghost predicate LeadsTo(db: Db, db': Db) { exists calls :: Run(db, calls) == db' }

  // ... or from the empty one.
  ghost predicate ReachedDb(db: Db) { LeadsTo(EMPTY, db) }

  lemma LaterDb(db: Db, db': Db)
    requires DbInv(db) && LeadsTo(db, db')
    ensures Keeps(db, db')
  {
    var calls :| Run(db, calls) == db';
    RunKeeps(db, calls);
  }

  lemma ReachedIsFine(db: Db)
    requires ReachedDb(db)
    ensures DbInv(db)
  {
    LaterDb(EMPTY, db);
  }

  function AttemptsOf(attempts: seq<Attempt>, j: JobId): (r: seq<AttemptId>)
    ensures forall k | 0 <= k < |r| :: r[k] < |attempts| && attempts[r[k]].jobId == j
    ensures forall k, l | 0 <= k < l < |r| :: r[k] < r[l]
    ensures forall a | 0 <= a < |attempts| && attempts[a].jobId == j :: a in r
  {
    if attempts == [] then []
    else
      var last := |attempts| - 1;
      AttemptsOf(attempts[..last], j) + (if attempts[last].jobId == j then [last] else [])
  }

  // The attempts of a job, in order: none, one, or a validation that ended in success
  // followed by a deploy. The last one is the active one.
  ghost predicate AttemptListShape(db: Db, j: JobId)
    requires j < |db.jobs|
  {
    var list := AttemptsOf(db.attempts, j);
    && |list| <= 2
    && (|list| == 2 ==> SuccessfulValidation(db.attempts[list[0]]) && db.attempts[list[1]].operation == Deploy)
    && db.jobs[j].activeAttempt == if list == [] then None else Some(list[|list| - 1])
  }

  lemma AttemptLists(db: Db, j: JobId)
    requires ReachedDb(db)
    requires j < |db.jobs|
    ensures AttemptListShape(db, j)
  {
    ReachedIsFine(db);
    ShapeOfInv(db, j);
  }

  lemma AtMostTwoAttempts(db: Db, j: JobId)
    requires DbInv(db) && j < |db.jobs|
    ensures var list := AttemptsOf(db.attempts, j);
      && |list| <= 2
      && (|list| == 2 ==> SuccessfulValidation(db.attempts[list[0]]) && db.attempts[list[1]].operation == Deploy)
  {
    var list := AttemptsOf(db.attempts, j);
    assert |list| < 2 || PairFine(db, list[0], list[1]);
    assert |list| < 3 || PairFine(db, list[1], list[2]);
  }

  lemma LastIsActive(db: Db, j: JobId)
    requires DbInv(db) && j < |db.jobs|
    ensures var list := AttemptsOf(db.attempts, j);
      db.jobs[j].activeAttempt == if list == [] then None else Some(list[|list| - 1])
  {
    var list := AttemptsOf(db.attempts, j);
    assert JobFine(db, j);
    assert db.jobs[j].activeAttempt.Some? ==> db.jobs[j].activeAttempt.value in list;
    if list != [] {
      ActiveIsLast(db, list[|list| - 1]);
    }
  }

  lemma ShapeOfInv(db: Db, j: JobId)
    requires DbInv(db) && j < |db.jobs|
    ensures AttemptListShape(db, j)
  {
    AtMostTwoAttempts(db, j);
    LastIsActive(db, j);
  }

  // Hence at most one attempt of a job can change the target org.
  lemma OneRealDeployment(db: Db, a: AttemptId, b: AttemptId)
    requires ReachedDb(db)
    requires a < |db.attempts| && b < |db.attempts| && db.attempts[a].jobId == db.attempts[b].jobId
      && db.attempts[a].operation != Validate && db.attempts[b].operation != Validate
    ensures a == b
  {
    ReachedIsFine(db);
    assert AttemptFine(db, a) && AttemptFine(db, b);
    assert a >= b || PairFine(db, a, b);
    assert b >= a || PairFine(db, b, a);
  }

  // At most one deploy job comes out of a dry run, however often it is approved.
  lemma OneDeploymentPerDryRun(db: Db, i: JobId, j: JobId)
    requires ReachedDb(db)
    requires i < |db.jobs| && j < |db.jobs| && db.jobs[i].dryRunJobId.Some? && db.jobs[j].dryRunJobId == db.jobs[i].dryRunJobId
    ensures i == j
  {
    ReachedIsFine(db);
    var d := db.jobs[i].dryRunJobId.value;
    assert HasApproval(db, i, d) && HasApproval(db, j, d);
    var p :| 0 <= p < |db.approvals| && db.approvals[p].deployJobId == i && db.approvals[p].dryRunJobId == d;
    var q :| 0 <= q < |db.approvals| && db.approvals[q].deployJobId == j && db.approvals[q].dryRunJobId == d;
    assert p == q;
  }

  // At most one dry run, and at most one direct deployment, per user and Idempotency-Key.
  lemma OneJobPerRequest(db: Db, kind: Kind, user: string, key: string, i: JobId, j: JobId)
    requires ReachedDb(db)
    requires i < |db.jobs| && j < |db.jobs| && SameRequest(db.jobs[i], kind, user, key) && SameRequest(db.jobs[j], kind, user, key)
    ensures i == j
  {
    ReachedIsFine(db);
  }

  lemma FoundByRequest(db: Db, kind: Kind, user: string, key: string, id: JobId)
    requires RequestsDistinct(db) && id < |db.jobs| && SameRequest(db.jobs[id], kind, user, key)
    ensures FindRequest(db.jobs, kind, user, key) == Some(id)
  {
  }

  lemma RepeatedCreation(db: Db, kind: Kind, input: NewJob, allowed: bool, now: int, db': Db, allowedAgain: bool, later: int)
    requires DbInv(db) && CreateOnce(db, kind, input, allowed, now).Committed?
    requires LeadsTo(CreateOnce(db, kind, input, allowed, now).db, db')
    ensures CreateOnce(db', kind, input, allowedAgain, later)
      == Committed(db', Creation(CreateOnce(db, kind, input, allowed, now).value.id, false))
  {
    var first := CreateOnce(db, kind, input, allowed, now);
    CreationKeeps(db, kind, input, allowed, now);
    LaterDb(first.db, db');
    var id := first.value.id;
    assert SameRequest(first.db.jobs[id], kind, input.createdBy, input.clientRequestId)
      && first.db.jobs[id].requestHash == Some(input.requestHash);
    assert JobMoves(first.db.jobs[id], db'.jobs[id]);
    FoundByRequest(db', kind, input.createdBy, input.clientRequestId, id);
  }

  // A repeated request with the same hash gets the job it made, and nothing new is queued.
  lemma RepeatedRequestFindsJob(db: Db, input: NewJob, now: int, db': Db, later: int)
    requires DbInv(db) && CreateDryRun(db, input, now).Committed? && LeadsTo(CreateDryRun(db, input, now).db, db')
    ensures CreateDryRun(db', input, later) == Committed(db', Creation(CreateDryRun(db, input, now).value.id, false))
  {
    RepeatedCreation(db, DryRun, input, true, now, db', true, later);
  }

  // So does a repeated direct deployment, even if its user may no longer deploy.
  lemma RepeatedDirectFindsJob(db: Db, input: NewJob, mayDeploy: bool, now: int, db': Db, mayDeployAgain: bool, later: int)
    requires DbInv(db) && CreateDirectDeployment(db, input, true, mayDeploy, now).Committed?
    requires LeadsTo(CreateDirectDeployment(db, input, true, mayDeploy, now).db, db')
    ensures CreateDirectDeployment(db', input, true, mayDeployAgain, later)
      == Committed(db', Creation(CreateDirectDeployment(db, input, true, mayDeploy, now).value.id, false))
  {
    RepeatedCreation(db, Deployment, input, mayDeploy, now, db', mayDeployAgain, later);
  }

  // Once a job is closed its row never changes again, nor does its active attempt.
  lemma ClosedIsFrozen(db: Db, db': Db, j: JobId)
    requires DbInv(db) && LeadsTo(db, db') && j < |db.jobs| && Closed(db.jobs[j].status)
    ensures |db'.jobs| >= |db.jobs| && db'.jobs[j] == db.jobs[j]
    ensures AttemptsOf(db'.attempts, j) == AttemptsOf(db.attempts, j)
    ensures forall a | a in AttemptsOf(db.attempts, j) :: a < |db'.attempts| && db'.attempts[a] == db.attempts[a]
  {
    LaterDb(db, db');
    assert JobMoves(db.jobs[j], db'.jobs[j]);
    ShapeOfInv(db, j);
    ShapeOfInv(db', j);
    var list, list' := AttemptsOf(db.attempts, j), AttemptsOf(db'.attempts, j);
    forall a | a in list ensures a in list' && db'.attempts[a] == db.attempts[a] {
      assert AttemptFine(db, a) && AttemptStays(db, a) && AttemptMoves(db.attempts[a], db'.attempts[a]);
    }
    forall a | a in list' ensures a in list {
      NoNewAttempt(db, db', j, a);
    }
    SameIncreasing(list, list');
  }

  lemma NoNewAttempt(db: Db, db': Db, j: JobId, a: AttemptId)
    requires DbInv(db) && DbInv(db') && Moves(db, db') && j < |db.jobs| && db'.jobs[j].activeAttempt == db.jobs[j].activeAttempt
    requires a < |db'.attempts| && db'.attempts[a].jobId == j
    ensures a < |db.attempts| && db.attempts[a].jobId == j
  {
    ActiveIsLast(db', a);
    assert JobFine(db, j);
    assert AttemptMoves(db.attempts[a], db'.attempts[a]);
  }

  ghost predicate Increasing(s: seq<nat>) { forall k, l | 0 <= k < l < |s| :: s[k] < s[l] }

  lemma LastAside(s: seq<nat>)
    requires Increasing(s) && s != []
    ensures var last := s[|s| - 1];
      && Increasing(s[..|s| - 1]) && (forall x | x in s :: x <= last)
      && (forall x :: x in s[..|s| - 1] <==> x in s && x != last)
  {
    assert s == s[..|s| - 1] + [s[|s| - 1]];
  }

  lemma {:induction false} SameIncreasing(a: seq<nat>, b: seq<nat>)
    requires Increasing(a) && Increasing(b) && forall x :: x in a <==> x in b
    ensures a == b
  {
    assert b != [] ==> b[0] in b;
    if a != [] {
      var last := |a| - 1;
      assert a[last] in b && b[|b| - 1] in a;
      LastAside(a);
      LastAside(b);
      assert a[last] == b[|b| - 1];
      forall x ensures x in a[..last] <==> x in b[..|b| - 1] { assert x in a <==> x in b; }
      SameIncreasing(a[..last], b[..|b| - 1]);
      assert a == a[..last] + [a[last]] && b == b[..|b| - 1] + [b[|b| - 1]];
    }
  }

  // ---- Approval evidence ----

  // What every approval in every reachable database is backed by, for good.
  lemma ApprovalsAreBacked(db: Db, p: nat)
    requires ReachedDb(db)
    requires p < |db.approvals|
    ensures var approval := db.approvals[p];
      && approval.dryRunJobId < |db.jobs| && approval.deployJobId < |db.jobs|
      && (var dryRun, deploy := db.jobs[approval.dryRunJobId], db.jobs[approval.deployJobId];
          && dryRun.kind == DryRun && dryRun.status == ApprovalPending && dryRun.prepared && dryRun.payloadDigestVersion == 2
          && dryRun.payloadChecksum == approval.payloadChecksum
          && deploy.dryRunJobId == Some(approval.dryRunJobId)
          && deploy.targetIdentity == dryRun.targetIdentity && dryRun.targetIdentity.Some?
          && (forall a | 0 <= a < |db.attempts| && db.attempts[a].jobId == approval.deployJobId ::
                Some(db.attempts[a].targetIdentity) == dryRun.targetIdentity && db.attempts[a].approvalJobId == Some(approval.dryRunJobId)))
  {
    ReachedIsFine(db);
    assert ApprovalFine(db, p);
    forall a | 0 <= a < |db.attempts| && db.attempts[a].jobId == db.approvals[p].deployJobId
      ensures Some(db.attempts[a].targetIdentity) == db.jobs[db.approvals[p].dryRunJobId].targetIdentity
        && db.attempts[a].approvalJobId == Some(db.approvals[p].dryRunJobId)
    {
      assert AttemptFine(db, a);
    }
  }

  // ---- Lifecycle ----

  // How often the status of job `j` changes along a run.
  function StatusChanges(db: Db, calls: seq<TimedCall>, j: JobId): nat
  {
    if calls == [] then 0
    else
      var last := |calls| - 1;
      var before, after := Run(db, calls[..last]), Run(db, calls);
      StatusChanges(db, calls[..last], j)
      + if j < |before.jobs| && j < |after.jobs| && before.jobs[j].status != after.jobs[j].status then 1 else 0
  }

  lemma {:induction false} ChangesUseUpRank(db: Db, calls: seq<TimedCall>, j: JobId)
    requires DbInv(db)
    ensures j < |Run(db, calls).jobs| ==> StatusChanges(db, calls, j) + Rank(Run(db, calls).jobs[j].status) <= 4
    ensures j >= |Run(db, calls).jobs| ==> StatusChanges(db, calls, j) == 0
  {
    if calls != [] {
      var last := |calls| - 1;
      var before := Run(db, calls[..last]);
      ChangesUseUpRank(db, calls[..last], j);
      RunKeeps(db, calls[..last]);
      StepKeeps(before, calls[last].call, calls[last].now);
      if j < |before.jobs| {
        assert JobMoves(before.jobs[j], Run(db, calls).jobs[j]);
      } 
    }
  }

  // Every job makes at most four transitions.
  lemma AtMostFourTransitions(calls: seq<TimedCall>, j: JobId)
    ensures StatusChanges(EMPTY, calls, j) <= 4
  {
    ChangesUseUpRank(EMPTY, calls, j);
  }

  // A job has a completion time exactly in the four finished statuses, and a queued job
  // has submitted nothing.
  lemma LifecycleFacts(db: Db, j: JobId)
    requires ReachedDb(db)
    requires j < |db.jobs|
    ensures (db.jobs[j].completedAt.Some? <==> Finished(db.jobs[j].status))
      && (db.jobs[j].status == Queued ==> AttemptsOf(db.attempts, j) == [] && db.jobs[j].activeAttempt.None?)
  {
    ReachedIsFine(db);
    assert JobFine(db, j);
    ShapeOfInv(db, j);
  }

  // ---- Optimistic attempt writes ----

  // Between any two moments of a run an attempt's version never falls, an equal version
  // means an untouched row, a remote id once set stays, and a superseded row is final.
  lemma AttemptHistory(db: Db, db': Db, a: AttemptId)
    requires DbInv(db) && LeadsTo(db, db') && a < |db.attempts|
    ensures a < |db'.attempts|
      && db.attempts[a].version <= db'.attempts[a].version
      && (db'.attempts[a].version == db.attempts[a].version ==> db'.attempts[a] == db.attempts[a])
      && (OwnId(db.attempts[a]).Some? ==> OwnId(db'.attempts[a]) == OwnId(db.attempts[a]))
      && (AttemptStays(db, a) ==> db'.attempts[a] == db.attempts[a])
  {
    LaterDb(db, db');
    assert AttemptMoves(db.attempts[a], db'.attempts[a]);
  }

  // A completion that names an attempt and its version commits only if that attempt is
  // still the active one and nothing was written to it since.
  lemma CompletionIsCurrent(db: Db, a: AttemptId, db': Db, id: JobId, next: Status, details: Details, now: int)
    requires DbInv(db) && LeadsTo(db, db') && a < |db.attempts|
    requires details.attemptId == Some(a) && details.attemptVersion == Some(db.attempts[a].version)
    requires Transition(db', id, next, details, now).Committed?
    ensures a < |db'.attempts| && db'.attempts[a] == db.attempts[a]
    ensures id < |db'.jobs| && db'.jobs[id].activeAttempt == Some(a) && db'.attempts[a].jobId == id
  {
    AttemptHistory(db, db', a);
  }

  // ---- Terminal attempts ----

  // A terminal attempt is reopened by one call alone: an unfinished reconciliation report for
  // exactly this attempt, with its current version, on a job that awaits reconciliation.
  lemma ReopenedExactly(db: Db, c: Call, now: int, a: AttemptId)
    requires a < |db.attempts| && db.attempts[a].state == Terminal
    ensures a < |Apply(db, c, now).attempts|
    ensures Apply(db, c, now).attempts[a].state != Terminal
      <==> c.CallReport? && RecordReport(db, c.id, c.mark, c.progress, now).Committed?
           && c.mark.Some? && c.mark.value.id == a && !c.progress.done
  {
  }

  lemma TerminalChangesInReconciliation(db: Db, c: Call, now: int, a: AttemptId)
    requires a < |db.attempts| && db.attempts[a].state == Terminal
    ensures a < |Apply(db, c, now).attempts|
    ensures Apply(db, c, now).attempts[a] != db.attempts[a] ==>
      var j := db.attempts[a].jobId; j < |db.jobs| && db.jobs[j].status == ReconcileRequired
  {
  }

  // While its job runs, a terminal attempt is final.
  lemma TerminalWhileRunning(db: Db, db': Db, a: AttemptId)
    requires DbInv(db) && LeadsTo(db, db') && a < |db.attempts| && db.attempts[a].state == Terminal
    requires db.attempts[a].jobId < |db'.jobs| && Running(db'.jobs[db.attempts[a].jobId].status)
    ensures a < |db'.attempts| && db'.attempts[a] == db.attempts[a]
  {
    var calls :| Run(db, calls) == db';
    TerminalAlong(db, calls, a);
  }

  lemma {:induction false} TerminalAlong(db: Db, calls: seq<TimedCall>, a: AttemptId)
    requires DbInv(db) && a < |db.attempts| && db.attempts[a].state == Terminal
    requires var j := db.attempts[a].jobId; j < |Run(db, calls).jobs| && Running(Run(db, calls).jobs[j].status)
    ensures a < |Run(db, calls).attempts| && Run(db, calls).attempts[a] == db.attempts[a]
  {
    if calls != [] {
      var last := |calls| - 1;
      var before := Run(db, calls[..last]);
      RunKeeps(db, calls[..last]);
      assert AttemptMoves(db.attempts[a], before.attempts[a]);
      TerminalStep(before, calls[last].call, calls[last].now, a);
      TerminalAlong(db, calls[..last], a);
    }
  }

  // A running job with an attempt was running before the step, and the step left a terminal
  // attempt of it alone.
  lemma TerminalStep(db: Db, c: Call, now: int, a: AttemptId)
    requires DbInv(db) && a < |db.attempts|
    requires var j := db.attempts[a].jobId; j < |Apply(db, c, now).jobs| && Running(Apply(db, c, now).jobs[j].status)
    ensures var j := db.attempts[a].jobId; j < |db.jobs| && Running(db.jobs[j].status)
    ensures a < |Apply(db, c, now).attempts|
    ensures db.attempts[a].state == Terminal ==> Apply(db, c, now).attempts[a] == db.attempts[a]
  {
    var j := db.attempts[a].jobId;
    StepKeeps(db, c, now);
    assert AttemptFine(db, a) && JobFine(db, j);
    EarlierIsRunning(db, Apply(db, c, now), j);
    if db.attempts[a].state == Terminal { TerminalChangesInReconciliation(db, c, now, a); }
  }

  // A running job was queued or running before.
  lemma EarlierIsRunning(db: Db, db': Db, j: JobId)
    requires Moves(db, db') && j < |db.jobs| && Running(db'.jobs[j].status)
    ensures Running(db.jobs[j].status) || db.jobs[j].status == Queued
  {
    assert JobMoves(db.jobs[j], db'.jobs[j]);
  }

  // ---- Failing a job ----

  lemma FailingWrite(db: Db, j: JobId, now: int)
    requires j < |db.jobs|
    ensures var db' := Apply(db, CallTransition(j, Status.Failed, NO_DETAILS), now);
      && |db'.jobs| == |db.jobs| && db'.attempts == db.attempts
      && db'.jobs[j].status == if Closed(db.jobs[j].status) then db.jobs[j].status else Status.Failed
  {
  }

  // The guard of a transition is the status alone: writing FAILED fails a job that has
  // submitted something exactly when it has an active attempt and is not closed.
  lemma FailingSubmittedExactly(db: Db, j: JobId, now: int)
    requires DbInv(db) && j < |db.jobs|
    ensures var db' := Apply(db, CallTransition(j, Status.Failed, NO_DETAILS), now);
      && j < |db'.jobs|
      && ((db'.jobs[j].status == Status.Failed && db.jobs[j].status != Status.Failed && AttemptsOf(db'.attempts, j) != [])
          <==> (db.jobs[j].activeAttempt.Some? && !Closed(db.jobs[j].status)))
  {
    FailingWrite(db, j, now);
    LastIsActive(db, j);
  }

  // ---- Artifacts of a dry run ----

  // A dry run becomes prepared by one call alone, the committing write of its artifacts; a new
  // one is not prepared.
  lemma PreparedExactly(db: Db, c: Call, now: int, j: JobId)
    requires j < |Apply(db, c, now).jobs| && Apply(db, c, now).jobs[j].kind == DryRun
    ensures Apply(db, c, now).jobs[j].prepared
      <==> (j < |db.jobs| && db.jobs[j].prepared)
           || (c.CallDryRunArtifacts? && c.id == j && RecordDryRunArtifacts(db, j, c.artifacts, now).Committed?)
  {
  }

  // Without artifacts there is no approval, now or later.
  lemma UnpreparedIsRefused(db: Db, request: ApprovalRequest, read: Job, now: int)
    requires request.dryRunJobId < |db.jobs| && !db.jobs[request.dryRunJobId].prepared
    ensures ApproveAndQueue(db, request, read, now).Refused?
  {
  }

  lemma UnpreparedIsNeverApproved(db: Db, db': Db, request: ApprovalRequest, read: Job, now: int)
    requires DbInv(db) && LeadsTo(db, db') && request.dryRunJobId < |db.jobs|
    requires db.jobs[request.dryRunJobId].status == ApprovalPending && !db.jobs[request.dryRunJobId].prepared
    ensures ApproveAndQueue(db', request, read, now).Refused?
  {
    ClosedIsFrozen(db, db', request.dryRunJobId);
    UnpreparedIsRefused(db', request, read, now);
  }
}
