// When an approval is granted, refused and for how long it may be asked for, said of the rows
// and the request alone (approveAndQueueDeployment of src/deploy/deployment-job-repository.ts).
module DeploymentApproval {
  import opened Options
  import opened DeploymentModel
  import opened DeploymentSteps
  import opened DeploymentRuns
  import opened DeploymentDiscipline

  // ---- One request ----

  // What the request itself has to bring along.
  predicate Authorised(q: ApprovalRequest)
  {
    q.confirmed && q.mayExecute && q.mayDeploy && IsChecksum(q.payloadChecksum)
  }

  // A request is granted exactly if it is confirmed and authorised and names, with its right
  // checksum and alias, a prepared dry run with a v2 digest and a recorded org that waits for
  // approval since at most thirty minutes and whose plan and result were read.
  lemma ApprovalGrantedExactly(db: Db, q: ApprovalRequest, read: Job, now: int)
    ensures ApproveAndQueue(db, q, read, now).Committed?
      <==> (&& Authorised(q) && q.dryRunJobId < |db.jobs|
            && var d := db.jobs[q.dryRunJobId];
            && d.kind == DryRun && d.status == ApprovalPending && d.prepared && d.payloadDigestVersion == 2
            && d.payloadChecksum == q.payloadChecksum && d.targetAlias == q.targetAlias
            && d.targetIdentity.Some?
            && d.completedAt.Some? && now <= d.completedAt.value + 1_800_000
            && read.testPlan.Some? && read.dryRunResult.Some?)
  {
  }

  // A changed payload is reported as such exactly if nothing earlier is wrong; a malformed
  // checksum and a missing dry run are invalid arguments; everything else is a denial.
  lemma RefusalReasons(db: Db, q: ApprovalRequest, read: Job, now: int)
    requires ApproveAndQueue(db, q, read, now).Refused?
    ensures ApproveAndQueue(db, q, read, now).error == PAYLOAD_CHANGED
      <==> (&& q.confirmed && IsChecksum(q.payloadChecksum) && q.mayExecute && q.dryRunJobId < |db.jobs|
            && db.jobs[q.dryRunJobId].kind == DryRun && db.jobs[q.dryRunJobId].status == ApprovalPending
            && db.jobs[q.dryRunJobId].payloadChecksum != q.payloadChecksum)
    ensures ApproveAndQueue(db, q, read, now).error == INVALID_ARGUMENT
      <==> q.confirmed && (!IsChecksum(q.payloadChecksum) || (q.mayExecute && q.dryRunJobId >= |db.jobs|))
    ensures ApproveAndQueue(db, q, read, now).error in {PAYLOAD_CHANGED, INVALID_ARGUMENT, APPROVAL_DENIED}
  {
  }

  // The first granted request queues a deployment of what was validated, for whoever asked;
  // a repeated one is answered with that job and queues nothing.
  lemma GrantedDeploysTheDryRun(db: Db, q: ApprovalRequest, read: Job, now: int)
    requires DbInv(db) && ApproveAndQueue(db, q, read, now).Committed?
    ensures var o := ApproveAndQueue(db, q, read, now); var d := q.dryRunJobId;
      && o.value < |o.db.jobs| && d < |db.jobs| && o.db.jobs[o.value].dryRunJobId == Some(d)
      && (o.db == db <==> exists j :: 0 <= j < |db.jobs| && db.jobs[j].dryRunJobId == Some(d))
      && (o.db != db ==>
            && o.value == |db.jobs| && o.db.jobs == db.jobs + [o.db.jobs[o.value]] && o.db.attempts == db.attempts
            && o.db.approvals == db.approvals + [Approval(d, o.value, q.approvedBy, q.payloadChecksum, q.targetAlias)]
            && var (job, dryRun) := (o.db.jobs[o.value], db.jobs[d]);
            && job.kind == Deployment && job.status == Queued && job.createdBy == q.approvedBy && job.createdAt == now
            && job.payloadChecksum == q.payloadChecksum && job.targetAlias == q.targetAlias
            && job.targetIdentity == dryRun.targetIdentity && job.runDirectory == dryRun.runDirectory
            && job.testPlan == read.testPlan && job.dryRunResult == read.dryRunResult && job.prepared
            && job.activeAttempt.None? && job.remoteId.None? && job.clientRequestId.None?)
  {
    var o := ApproveAndQueue(db, q, read, now);
    var d := q.dryRunJobId;
    var existing := FindApproval(db.approvals, d);
    if existing.Some? {
      var a :| a in db.approvals && a.dryRunJobId == d && a.deployJobId == existing.value;
      var p :| 0 <= p < |db.approvals| && db.approvals[p] == a;
      assert ApprovalFine(db, p);
    } else {
      assert |o.db.jobs| != |db.jobs|;
    }
    forall j | 0 <= j < |db.jobs| && db.jobs[j].dryRunJobId == Some(d) ensures existing.Some? {
      ApprovedIsFound(db, j, d);
    }
  }

  lemma ApprovedIsFound(db: Db, j: JobId, d: JobId)
    requires DbInv(db) && j < |db.jobs| && db.jobs[j].dryRunJobId == Some(d)
    ensures FindApproval(db.approvals, d).Some?
  {
    assert HasApproval(db, j, d);
    var p :| 0 <= p < |db.approvals| && db.approvals[p].deployJobId == j && db.approvals[p].dryRunJobId == d;
    assert db.approvals[p] in db.approvals;
  }

  // ---- Creating jobs ----

  // Some job was made by this very request of this user.
  ghost predicate MadeBefore(db: Db, kind: Kind, input: NewJob, j: JobId)
  {
    && j < |db.jobs| && db.jobs[j].kind == kind && db.jobs[j].dryRunJobId.None?
    && db.jobs[j].createdBy == input.createdBy && db.jobs[j].clientRequestId == Some(input.clientRequestId)
  }

  predicate WellFormedRequest(input: NewJob)
  {
    IsClientRequestId(input.clientRequestId) && IsChecksum(input.requestHash) && IsChecksum(input.payloadChecksum)
  }

  // A new job holds what was asked for and nothing else yet.
  predicate JustQueued(job: Job, kind: Kind, input: NewJob, now: int)
  {
    && job.kind == kind && job.status == Queued && job.targetAlias == input.targetAlias && job.payloadChecksum == input.payloadChecksum
    && job.targetIdentity == Some(input.targetIdentity) && job.createdBy == input.createdBy && job.createdAt == now
    && job.clientRequestId == Some(input.clientRequestId) && job.requestHash == Some(input.requestHash)
    && !job.prepared && job.dryRunJobId.None? && job.activeAttempt.None? && job.remoteId.None?
    && job.startedAt.None? && job.completedAt.None? && job.testPlan.None? && job.dryRunResult.None?
  }

  lemma DryRunsAreCreatedExactly(db: Db, input: NewJob, now: int)
    ensures var o := CreateDryRun(db, input, now);
      && (o == Refused(INVALID_ARGUMENT) <==> !WellFormedRequest(input))
      && (o == Refused(IDEMPOTENCY_CONFLICT) ==> exists j: JobId :: MadeBefore(db, DryRun, input, j) && db.jobs[j].requestHash != Some(input.requestHash))
      && (o.Committed? && !o.value.created ==>
            o.db == db && MadeBefore(db, DryRun, input, o.value.id)
            && db.jobs[o.value.id].requestHash == Some(input.requestHash))
      && (o.Committed? && o.value.created <==> WellFormedRequest(input) && forall j: JobId :: !MadeBefore(db, DryRun, input, j))
      && (o.Committed? && o.value.created ==>
            o.value.id == |db.jobs| && o.db == db.(jobs := db.jobs + [o.db.jobs[|db.jobs|]])
            && JustQueued(o.db.jobs[|db.jobs|], DryRun, input, now))
      && (o.Refused? ==> o.error in {INVALID_ARGUMENT, IDEMPOTENCY_CONFLICT})
  {
    FoundExactly(db, DryRun, input);
  }

  lemma FoundExactly(db: Db, kind: Kind, input: NewJob)
    ensures var found := FindRequest(db.jobs, kind, input.createdBy, input.clientRequestId);
      && (found.None? <==> forall j: JobId :: !MadeBefore(db, kind, input, j))
      && (found.Some? ==> MadeBefore(db, kind, input, found.value))
  {
    var found := FindRequest(db.jobs, kind, input.createdBy, input.clientRequestId);
    if found.None? {
      forall j: JobId ensures !MadeBefore(db, kind, input, j) {
        if j < |db.jobs| { assert !SameRequest(db.jobs[j], kind, input.createdBy, input.clientRequestId); }
      }
    } else {
      assert MadeBefore(db, kind, input, found.value);
    }
  }

  lemma DirectDeploymentsAreCreatedExactly(db: Db, input: NewJob, confirmed: bool, mayDeploy: bool, now: int)
    ensures var o := CreateDirectDeployment(db, input, confirmed, mayDeploy, now);
      && (o == Refused(INVALID_ARGUMENT) <==> confirmed && !WellFormedRequest(input))
      && (o == Refused(APPROVAL_DENIED) <==>
            !confirmed || (WellFormedRequest(input) && !mayDeploy && forall j: JobId :: !MadeBefore(db, Deployment, input, j)))
      && (o == Refused(IDEMPOTENCY_CONFLICT) ==>
            exists j: JobId :: MadeBefore(db, Deployment, input, j) && db.jobs[j].requestHash != Some(input.requestHash))
      && (o.Committed? && !o.value.created ==>
            o.db == db && MadeBefore(db, Deployment, input, o.value.id)
            && db.jobs[o.value.id].requestHash == Some(input.requestHash))
      && (o.Committed? && o.value.created <==>
            confirmed && mayDeploy && WellFormedRequest(input) && forall j: JobId :: !MadeBefore(db, Deployment, input, j))
      && (o.Committed? && o.value.created ==>
            o.value.id == |db.jobs| && o.db == db.(jobs := db.jobs + [o.db.jobs[|db.jobs|]])
            && JustQueued(o.db.jobs[|db.jobs|], Deployment, input, now))
  {
    FoundExactly(db, Deployment, input);
  }

  // ---- Every call ----

  // A deployment enters the queue by one of two calls alone, each confirmed by its user, who
  // may deploy: the approval of a dry run that may be executed, or a direct request.
  lemma DeploymentsAreConfirmed(db: Db, c: Call, now: int, j: JobId)
    requires |db.jobs| <= j < |Apply(db, c, now).jobs| && Apply(db, c, now).jobs[j].kind == Deployment
    ensures j == |db.jobs| && |Apply(db, c, now).jobs| == j + 1
    ensures if Apply(db, c, now).jobs[j].dryRunJobId.Some?
      then c.CallApprove? && Authorised(c.request) && Apply(db, c, now).jobs[j].dryRunJobId == Some(c.request.dryRunJobId)
      else c.CallCreateDirect? && c.confirmed && c.mayDeploy
  {
  }

  // ---- Every run ----

  // Deployment `j` was queued at most thirty minutes after its dry run completed.
  ghost predicate InTime(db: Db, j: JobId)
    requires j < |db.jobs|
  {
    db.jobs[j].dryRunJobId.Some? ==>
      && db.jobs[j].dryRunJobId.value < |db.jobs|
      && var dryRun := db.jobs[db.jobs[j].dryRunJobId.value];
      && dryRun.completedAt.Some? && db.jobs[j].createdAt <= dryRun.completedAt.value + 1_800_000
  }

  lemma InTimeStays(db: Db, db': Db, j: JobId)
    requires DbInv(db) && Moves(db, db') && j < |db.jobs| && InTime(db, j)
    ensures InTime(db', j)
  {
    assert JobMoves(db.jobs[j], db'.jobs[j]);
    if db.jobs[j].dryRunJobId.Some? {
      ApprovedDryRunIsClosed(db, j);
      ClosedRowStays(db, db', db.jobs[j].dryRunJobId.value);
    }
  }

  lemma QueuedInTime(db: Db, c: Call, now: int)
    ensures var db' := Apply(db, c, now); forall j | |db.jobs| <= j < |db'.jobs| :: InTime(db', j)
  {
    if c.CallApprove? {
      ApprovalGrantedExactly(db, c.request, c.read, now);
    }
  }

  lemma {:induction false} AllInTime(calls: seq<TimedCall>, j: JobId)
    requires j < |Run(EMPTY, calls).jobs|
    ensures InTime(Run(EMPTY, calls), j)
  {
    if calls != [] {
      var last := |calls| - 1;
      var before := Run(EMPTY, calls[..last]);
      RunKeeps(EMPTY, calls[..last]);
      StepKeeps(before, calls[last].call, calls[last].now);
      if j < |before.jobs| {
        AllInTime(calls[..last], j);
        InTimeStays(before, Run(EMPTY, calls), j);
      } else {
        QueuedInTime(before, calls[last].call, calls[last].now);
      }
    }
  }

  // In every run, whoever calls: a deployment of a dry run was queued at most thirty minutes
  // after that dry run completed, which happened before and does not change any more.
  lemma ApprovedWithinThirtyMinutes(db: Db, j: JobId)
    requires ReachedDb(db) && j < |db.jobs| && db.jobs[j].dryRunJobId.Some?
    ensures var d := db.jobs[j].dryRunJobId.value;
      && d < j && db.jobs[d].kind == DryRun && db.jobs[d].status == ApprovalPending && db.jobs[d].completedAt.Some?
      && db.jobs[j].createdAt <= db.jobs[d].completedAt.value + 1_800_000
  {
    var calls :| Run(EMPTY, calls) == db;
    AllInTime(calls, j);
    ReachedIsFine(db);
    ApprovedDryRunIsClosed(db, j);
  }
}
