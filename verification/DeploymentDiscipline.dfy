// What the callers of the repositories add to the database invariant: how the program's
// own calls are restricted, and what that keeps true of the rows.
module DeploymentDiscipline {
  import opened Options
  import opened DeploymentModel
  import opened DeploymentSteps
  import opened DeploymentRuns

  // ---- Facts about rows ----

  // The validation that a Quick Deploy of job `j` may reuse: the one its own dry run tracked.
  ghost predicate QuickBacked(db: Db, j: JobId, validationId: string)
    requires j < |db.jobs|
  {
    && db.jobs[j].dryRunJobId.Some? && db.jobs[j].dryRunJobId.value < |db.jobs|
    && var dryRun := db.jobs[db.jobs[j].dryRunJobId.value];
    && dryRun.activeAttempt.Some? && dryRun.activeAttempt.value < |db.attempts|
    && SuccessfulValidation(db.attempts[dryRun.activeAttempt.value])
    && db.attempts[dryRun.activeAttempt.value].validationId == Some(validationId)
    && db.attempts[dryRun.activeAttempt.value].payloadChecksum == dryRun.payloadChecksum
  }

  // An approved deployment carries its dry run's payload, plan and result.
  ghost predicate CarriesDryRun(db: Db, j: JobId)
    requires j < |db.jobs|
  {
    db.jobs[j].dryRunJobId.Some? ==>
      && db.jobs[j].dryRunJobId.value < |db.jobs|
      && var job, dryRun := db.jobs[j], db.jobs[db.jobs[j].dryRunJobId.value];
      && job.payloadChecksum == dryRun.payloadChecksum && job.payloadDigestVersion == 2
      && job.testPlan == dryRun.testPlan && job.dryRunResult == dryRun.dryRunResult
  }

  // A dry run is never "succeeded" and a deployment never "approval pending"; a validated
  // but undeployed job does not occur.
  predicate StatusFits(kind: Kind, status: Status)
  {
    && status != ValidatedPendingExecution
    && (kind == DryRun ==> status != Status.Succeeded)
    && (kind == Deployment ==> status != ApprovalPending)
  }

  ghost predicate RowSys(db: Db, j: JobId)
    requires j < |db.jobs|
  {
    var job := db.jobs[j];
    && StatusFits(job.kind, job.status)
    && (job.kind == DryRun && (job.testPlan.Some? || job.dryRunResult.Some?) ==> job.prepared)
    && (job.activeAttempt.Some? && job.activeAttempt.value < |db.attempts| ==>
          db.attempts[job.activeAttempt.value].payloadChecksum == job.payloadChecksum)
    && CarriesDryRun(db, j)
  }

  // A dry run only ever validates and a deployment only ever deploys; a submission is in
  // doubt exactly while its own remote id is unknown.
  ghost predicate AttemptSys(db: Db, a: AttemptId)
    requires a < |db.attempts|
  {
    var attempt := db.attempts[a];
    && attempt.jobId < |db.jobs|
    && (db.jobs[attempt.jobId].kind == DryRun <==> attempt.operation == Validate)
    && (attempt.state == Submitting <==> OwnId(attempt).None?)
    && attempt.digestVersion == 2
    && (attempt.operation == Deploy ==> attempt.validationId.None?)
    && (attempt.operation == QuickDeploy ==> attempt.validationId.Some? && QuickBacked(db, attempt.jobId, attempt.validationId.value))
  }

  ghost predicate DbSys(db: Db)
  {
    && (forall j | 0 <= j < |db.jobs| :: RowSys(db, j))
    && (forall a | 0 <= a < |db.attempts| :: AttemptSys(db, a))
  }

  // ---- How the program calls the repositories ----

  ghost predicate ReadEarlier(db: Db, d: JobId, read: Job)
  {
    && d < |db.jobs| && read.kind == db.jobs[d].kind
    && (read.kind == DryRun && read.testPlan.Some? ==> db.jobs[d].testPlan == read.testPlan)
    && (read.kind == DryRun && read.dryRunResult.Some? ==> db.jobs[d].dryRunResult == read.dryRunResult)
  }

  ghost predicate MayCallBegin(db: Db, id: JobId, purpose: Purpose, sum: string, digest: int)
  {
    id < |db.jobs| ==>
      && digest == 2 && db.jobs[id].activeAttempt.None?
      && (db.jobs[id].kind == DryRun <==> purpose.ForValidation?)
      && (db.jobs[id].dryRunJobId.Some? ==> sum == db.jobs[id].payloadChecksum)
      && (purpose.ForQuickDeploy? ==> QuickBacked(db, id, purpose.validationId))
  }

  // The recorded payload is the submitted one.
  ghost predicate MayRecordArtifacts(db: Db, id: JobId, a: Artifacts)
  {
    id < |db.jobs| && db.jobs[id].activeAttempt.Some? && db.jobs[id].activeAttempt.value < |db.attempts| ==>
      db.attempts[db.jobs[id].activeAttempt.value].payloadChecksum == a.payloadChecksum
  }

  ghost predicate Permitted(db: Db, c: Call)
  {
    match c
    case CallTransition(id, next, _) => id < |db.jobs| ==> StatusFits(db.jobs[id].kind, next)
    case CallBegin(id, purpose, sum, digest, _) => MayCallBegin(db, id, purpose, sum, digest)
    case CallDryRunArtifacts(id, a) => MayRecordArtifacts(db, id, a)
    case CallDirectArtifacts(id, a) => MayRecordArtifacts(db, id, a)
    case CallApprove(request, read) => ReadEarlier(db, request.dryRunJobId, read)
    case CallReport(id, mark, _) => mark.Some? && mark.value.id < |db.attempts| ==> OwnId(db.attempts[mark.value.id]).Some?
    case CallUntracked(_, _, _) => false
    case _ => true
  }

  // The job whose evidence columns the call may rewrite.
  function Rewrites(c: Call): Option<JobId>
  {
    match c
    case CallBegin(id, _, _, _, _) => Some(id)
    case CallDryRunArtifacts(id, _) => Some(id)
    case CallDirectArtifacts(id, _) => Some(id)
    case _ => None
  }

  ghost predicate Still(db: Db, db': Db, j: JobId)
    requires j < |db.jobs|
  {
    && j < |db'.jobs|
    && var before, after := db.jobs[j], db'.jobs[j];
    && after.activeAttempt == before.activeAttempt && after.payloadChecksum == before.payloadChecksum
    && after.payloadDigestVersion == before.payloadDigestVersion
    && after.testPlan == before.testPlan && after.dryRunResult == before.dryRunResult && after.prepared == before.prepared
  }

  // Evidence that no permitted call rewrites.
  ghost predicate EvidenceKept(db: Db, db': Db, j: JobId)
    requires j < |db.jobs|
  {
    && j < |db'.jobs|
    && var before, after := db.jobs[j], db'.jobs[j];
    && (before.dryRunJobId.Some? ==>
          after.payloadChecksum == before.payloadChecksum && after.payloadDigestVersion == before.payloadDigestVersion
          && after.testPlan == before.testPlan && after.dryRunResult == before.dryRunResult)
    && (before.kind == DryRun && before.testPlan.Some? ==> after.testPlan == before.testPlan)
    && (before.kind == DryRun && before.dryRunResult.Some? ==> after.dryRunResult == before.dryRunResult)
  }

  ghost predicate SysKeeps(db: Db, db': Db)
  {
    && DbInv(db') && Moves(db, db') && DbSys(db')
    && (forall j | 0 <= j < |db.jobs| :: EvidenceKept(db, db', j))
  }

  // Each call rewrites the evidence of at most the job it names.
  lemma OthersStill(db: Db, c: Call, now: int, j: JobId)
    requires j < |db.jobs| && Rewrites(c) != Some(j)
    ensures Still(db, Apply(db, c, now), j)
  {
  }

  lemma ApprovedDryRunIsClosed(db: Db, j: JobId)
    requires DbInv(db) && j < |db.jobs| && db.jobs[j].dryRunJobId.Some?
    ensures db.jobs[j].dryRunJobId.value < |db.jobs| && db.jobs[j].dryRunJobId.value < j
    ensures db.jobs[db.jobs[j].dryRunJobId.value].kind == DryRun
    ensures db.jobs[db.jobs[j].dryRunJobId.value].status == ApprovalPending
    ensures db.jobs[j].kind == Deployment
    ensures db.jobs[db.jobs[j].dryRunJobId.value].prepared && db.jobs[db.jobs[j].dryRunJobId.value].payloadDigestVersion == 2
    ensures db.jobs[db.jobs[j].dryRunJobId.value].targetIdentity.Some?
      && db.jobs[j].targetIdentity == db.jobs[db.jobs[j].dryRunJobId.value].targetIdentity
  {
    var d := db.jobs[j].dryRunJobId.value;
    assert HasApproval(db, j, d);
    var p :| 0 <= p < |db.approvals| && db.approvals[p].deployJobId == j && db.approvals[p].dryRunJobId == d;
    assert ApprovalFine(db, p);
  }

  lemma ClosedRowStays(db: Db, db': Db, j: JobId)
    requires Moves(db, db') && j < |db.jobs| && Closed(db.jobs[j].status)
    ensures db'.jobs[j] == db.jobs[j]
    ensures forall a | 0 <= a < |db.attempts| && db.attempts[a].jobId == j :: db'.attempts[a] == db.attempts[a]
  {
    assert JobMoves(db.jobs[j], db'.jobs[j]);
    assert forall a | 0 <= a < |db.attempts| && db.attempts[a].jobId == j :: AttemptStays(db, a);
  }

  // What stands behind a Quick Deploy stays behind it.
  lemma QuickBackedStays(db: Db, db': Db, j: JobId, v: string)
    requires DbInv(db) && Moves(db, db') && j < |db.jobs| && QuickBacked(db, j, v)
    ensures QuickBacked(db', j, v)
  {
    ApprovedDryRunIsClosed(db, j);
    var d := db.jobs[j].dryRunJobId.value;
    ClosedRowStays(db, db', d);
    assert JobMoves(db.jobs[j], db'.jobs[j]) && JobFine(db, d);
  }

  // ---- Attempts and rows that a step leaves alone ----

  lemma CarriesStays(db: Db, db': Db, j: JobId)
    requires DbInv(db) && Moves(db, db') && j < |db.jobs| && CarriesDryRun(db, j) && EvidenceKept(db, db', j)
    ensures CarriesDryRun(db', j)
  {
    assert JobMoves(db.jobs[j], db'.jobs[j]);
    if db.jobs[j].dryRunJobId.Some? {
      ApprovedDryRunIsClosed(db, j);
      ClosedRowStays(db, db', db.jobs[j].dryRunJobId.value);
    }
  }

  lemma StillRow(db: Db, db': Db, j: JobId)
    requires DbInv(db) && Moves(db, db') && j < |db.jobs| && RowSys(db, j) && Still(db, db', j)
    requires StatusFits(db'.jobs[j].kind, db'.jobs[j].status)
    ensures RowSys(db', j) && EvidenceKept(db, db', j)
  {
    assert JobMoves(db.jobs[j], db'.jobs[j]) && JobFine(db, j);
    CarriesStays(db, db', j);
    if db.jobs[j].activeAttempt.Some? {
      var a := db.jobs[j].activeAttempt.value;
      assert AttemptMoves(db.attempts[a], db'.attempts[a]);
    }
  }

  lemma SameAttempt(db: Db, db': Db, a: AttemptId)
    requires DbInv(db) && Moves(db, db') && a < |db.attempts| && AttemptSys(db, a) && db'.attempts[a] == db.attempts[a]
    ensures AttemptSys(db', a)
  {
    var attempt := db.attempts[a];
    assert JobMoves(db.jobs[attempt.jobId], db'.jobs[attempt.jobId]);
    if attempt.operation == QuickDeploy {
      QuickBackedStays(db, db', attempt.jobId, attempt.validationId.value);
    }
  }

  lemma WrittenAttempt(db: Db, db': Db, a: AttemptId)
    requires DbInv(db) && Moves(db, db') && a < |db.attempts| && AttemptSys(db, a)
    requires OwnId(db'.attempts[a]).Some? && db'.attempts[a].state != Submitting
    requires AttemptMoves(db.attempts[a], db'.attempts[a])
    ensures AttemptSys(db', a)
  {
    var attempt := db.attempts[a];
    assert JobMoves(db.jobs[attempt.jobId], db'.jobs[attempt.jobId]);
    if attempt.operation == QuickDeploy {
      QuickBackedStays(db, db', attempt.jobId, attempt.validationId.value);
    }
  }

  // ---- Permitted calls keep the facts ----

  ghost predicate SameOrAnswered(db: Db, db': Db, a: AttemptId)
    requires a < |db.attempts| && a < |db'.attempts|
  {
    db'.attempts[a] == db.attempts[a] || (OwnId(db'.attempts[a]).Some? && db'.attempts[a].state != Submitting)
  }

  // A call that leaves evidence columns alone and keeps the status fitting.
  lemma PlainStepKeeps(db: Db, db': Db)
    requires DbInv(db) && DbSys(db) && DbInv(db') && Moves(db, db')
    requires |db'.jobs| == |db.jobs| && |db'.attempts| == |db.attempts|
    requires forall j | 0 <= j < |db.jobs| :: Still(db, db', j) && StatusFits(db'.jobs[j].kind, db'.jobs[j].status)
    requires forall a | 0 <= a < |db.attempts| :: SameOrAnswered(db, db', a)
    ensures SysKeeps(db, db')
  {
    forall j | 0 <= j < |db'.jobs| ensures RowSys(db', j) && EvidenceKept(db, db', j) {
      StillRow(db, db', j);
    }
    forall a | 0 <= a < |db'.attempts| ensures AttemptSys(db', a) {
      assert AttemptMoves(db.attempts[a], db'.attempts[a]) && SameOrAnswered(db, db', a);
      if db'.attempts[a] == db.attempts[a] { SameAttempt(db, db', a); } else { WrittenAttempt(db, db', a); }
    }
  }

  lemma PlainCallKeeps(db: Db, c: Call, now: int)
    requires DbInv(db) && DbSys(db) && Rewrites(c).None?
    requires var db' := Apply(db, c, now);
      && |db'.jobs| == |db.jobs| && |db'.attempts| == |db.attempts|
      && (forall j | 0 <= j < |db.jobs| :: StatusFits(db'.jobs[j].kind, db'.jobs[j].status))
      && (forall a | 0 <= a < |db.attempts| :: SameOrAnswered(db, db', a))
    ensures SysKeeps(db, Apply(db, c, now))
  {
    var db' := Apply(db, c, now);
    StepKeeps(db, c, now);
    forall j | 0 <= j < |db.jobs| ensures Still(db, db', j) { OthersStill(db, c, now, j); }
    PlainStepKeeps(db, db');
  }

  lemma StatusesFit(db: Db)
    requires DbSys(db)
    ensures forall j | 0 <= j < |db.jobs| :: StatusFits(db.jobs[j].kind, db.jobs[j].status)
  {
    forall j | 0 <= j < |db.jobs| ensures StatusFits(db.jobs[j].kind, db.jobs[j].status) { assert RowSys(db, j); }
  }

  lemma TransitionPermitted(db: Db, id: JobId, next: Status, details: Details, now: int)
    requires DbInv(db) && DbSys(db) && Permitted(db, CallTransition(id, next, details))
    ensures SysKeeps(db, Apply(db, CallTransition(id, next, details), now))
  {
    StatusesFit(db);
    PlainCallKeeps(db, CallTransition(id, next, details), now);
  }

  lemma PlanPermitted(db: Db, id: JobId, mode: ExecutionMode, v: Option<string>, now: int)
    requires DbInv(db) && DbSys(db)
    ensures SysKeeps(db, Apply(db, CallPlan(id, mode, v), now))
  {
    StatusesFit(db);
    PlainCallKeeps(db, CallPlan(id, mode, v), now);
  }

  lemma SubmittedPermitted(db: Db, id: JobId, a: AttemptId, remoteId: string, now: int)
    requires DbInv(db) && DbSys(db)
    ensures SysKeeps(db, Apply(db, CallSubmitted(id, a, remoteId), now))
  {
    StatusesFit(db);
    PlainCallKeeps(db, CallSubmitted(id, a, remoteId), now);
  }

  lemma ProgressPermitted(db: Db, id: JobId, a: AttemptId, p: Progress, now: int)
    requires DbInv(db) && DbSys(db)
    ensures SysKeeps(db, Apply(db, CallProgress(id, a, p), now))
  {
    StatusesFit(db);
    PlainCallKeeps(db, CallProgress(id, a, p), now);
  }

  lemma BindPermitted(db: Db, id: JobId, a: AttemptId, op: Operation, remoteId: string, now: int)
    requires DbInv(db) && DbSys(db)
    ensures SysKeeps(db, Apply(db, CallBind(id, a, op, remoteId), now))
  {
    StatusesFit(db);
    PlainCallKeeps(db, CallBind(id, a, op, remoteId), now);
  }

  lemma ReportPermitted(db: Db, id: JobId, mark: Option<AttemptMark>, p: Progress, now: int)
    requires DbInv(db) && DbSys(db) && Permitted(db, CallReport(id, mark, p))
    ensures SysKeeps(db, Apply(db, CallReport(id, mark, p), now))
  {
    StatusesFit(db);
    PlainCallKeeps(db, CallReport(id, mark, p), now);
  }

  // A new row appears after the old ones.
  lemma AppendedRowKeeps(db: Db, db': Db)
    requires DbInv(db) && DbSys(db) && DbInv(db') && Moves(db, db')
    requires |db'.jobs| == |db.jobs| + 1 && db'.jobs[..|db.jobs|] == db.jobs && db'.attempts == db.attempts
    requires RowSys(db', |db.jobs|)
    ensures SysKeeps(db, db')
  {
    assert forall j | 0 <= j < |db.jobs| :: db'.jobs[j] == db'.jobs[..|db.jobs|][j];
    forall j | 0 <= j < |db'.jobs| ensures RowSys(db', j) && (j < |db.jobs| ==> EvidenceKept(db, db', j)) {
      if j < |db.jobs| { StillRow(db, db', j); }
    }
    forall a | 0 <= a < |db'.attempts| ensures AttemptSys(db', a) { SameAttempt(db, db', a); }
  }

  lemma NothingChanged(db: Db)
    requires DbInv(db) && DbSys(db)
    ensures SysKeeps(db, db)
  {
    MovesReflexive(db);
  }

  lemma CreatePermitted(db: Db, kind: Kind, input: NewJob, allowed: bool, now: int)
    requires DbInv(db) && DbSys(db)
    ensures SysKeeps(db, Kept(db, CreateOnce(db, kind, input, allowed, now)))
  {
    var db' := Kept(db, CreateOnce(db, kind, input, allowed, now));
    CreationKeeps(db, kind, input, allowed, now);
    NothingChanged(db);
    if |db'.jobs| > |db.jobs| {
      assert db'.jobs[|db.jobs|] == FreshJob(kind, input, now);
      AppendedRowKeeps(db, db');
    }
  }

  lemma ApprovePermitted(db: Db, request: ApprovalRequest, read: Job, now: int)
    requires DbInv(db) && DbSys(db) && ReadEarlier(db, request.dryRunJobId, read)
    ensures SysKeeps(db, Apply(db, CallApprove(request, read), now))
  {
    var db' := Apply(db, CallApprove(request, read), now);
    StepKeeps(db, CallApprove(request, read), now);
    NothingChanged(db);
    if |db'.jobs| > |db.jobs| {
      var d := request.dryRunJobId;
      assert db'.jobs[|db.jobs|] == ApprovedJob(d, db.jobs[d], read, request.approvedBy, now);
      assert db'.jobs[d] == db.jobs[d];
      AppendedRowKeeps(db, db');
    }
  }

  // The evidence of one job is rewritten and perhaps an attempt is begun for it.
  lemma RewrittenRowKeeps(db: Db, db': Db, id: JobId)
    requires DbInv(db) && DbSys(db) && DbInv(db') && Moves(db, db') && id < |db.jobs| && |db'.jobs| == |db.jobs|
    requires forall j | 0 <= j < |db.jobs| && j != id :: db'.jobs[j] == db.jobs[j]
    requires forall a | 0 <= a < |db.attempts| :: db'.attempts[a] == db.attempts[a]
    requires forall a | |db.attempts| <= a < |db'.attempts| :: AttemptSys(db', a)
    requires RowSys(db', id) && EvidenceKept(db, db', id)
    ensures SysKeeps(db, db')
  {
    forall j | 0 <= j < |db'.jobs| ensures RowSys(db', j) && EvidenceKept(db, db', j) {
      assert RowSys(db, j);
      if j != id { StillRow(db, db', j); }
    }
    forall a | 0 <= a < |db'.attempts| ensures AttemptSys(db', a) {
      if a < |db.attempts| { SameAttempt(db, db', a); }
    }
  }

  lemma ArtifactsPermitted(db: Db, c: Call, now: int)
    requires DbInv(db) && DbSys(db) && Permitted(db, c) && (c.CallDryRunArtifacts? || c.CallDirectArtifacts?)
    ensures SysKeeps(db, Apply(db, c, now))
  {
    var db' := Apply(db, c, now);
    StepKeeps(db, c, now);
    NothingChanged(db);
    if db' != db {
      assert RowSys(db, c.id) && JobFine(db, c.id);
      RewrittenRowKeeps(db, db', c.id);
    }
  }

  lemma BeginPermitted(db: Db, id: JobId, purpose: Purpose, sum: string, digest: int, dir: string, now: int)
    requires DbInv(db) && DbSys(db) && MayCallBegin(db, id, purpose, sum, digest)
    ensures SysKeeps(db, Apply(db, CallBegin(id, purpose, sum, digest, dir), now))
  {
    var db' := Apply(db, CallBegin(id, purpose, sum, digest, dir), now);
    StepKeeps(db, CallBegin(id, purpose, sum, digest, dir), now);
    NothingChanged(db);
    if db' != db {
      assert RowSys(db, id) && JobFine(db, id);
      CarriesAfterBegin(db, db', id);
      if purpose.ForQuickDeploy? { QuickBackedStays(db, db', id, purpose.validationId); }
      RewrittenRowKeeps(db, db', id);
    }
  }

  lemma CarriesAfterBegin(db: Db, db': Db, id: JobId)
    requires DbInv(db) && id < |db.jobs| && RowSys(db, id) && Moves(db, db')
    requires EvidenceKept(db, db', id)
    ensures CarriesDryRun(db', id)
  {
    CarriesStays(db, db', id);
  }

  lemma PermittedKeeps(db: Db, c: Call, now: int)
    requires DbInv(db) && DbSys(db) && Permitted(db, c)
    ensures SysKeeps(db, Apply(db, c, now))
  {
    NothingChanged(db);
    match c
    case CallCreateDryRun(input) => CreatePermitted(db, DryRun, input, true, now);
    case CallCreateDirect(input, confirmed, mayDeploy) => CreatePermitted(db, Deployment, input, mayDeploy, now);
    case CallTransition(id, next, details) => TransitionPermitted(db, id, next, details, now);
    case CallPlan(id, mode, v) => PlanPermitted(db, id, mode, v, now);
    case CallDryRunArtifacts(_, _) => ArtifactsPermitted(db, c, now);
    case CallDirectArtifacts(_, _) => ArtifactsPermitted(db, c, now);
    case CallApprove(request, read) => ApprovePermitted(db, request, read, now);
    case CallBegin(id, purpose, sum, digest, dir) => BeginPermitted(db, id, purpose, sum, digest, dir, now);
    case CallSubmitted(id, a, r) => SubmittedPermitted(db, id, a, r, now);
    case CallProgress(id, a, p) => ProgressPermitted(db, id, a, p, now);
    case CallUntracked(_, _, _) => assert false;
    case CallBind(id, a, op, r) => BindPermitted(db, id, a, op, r, now);
    case CallReport(id, mark, p) => ReportPermitted(db, id, mark, p, now);
  }
}
