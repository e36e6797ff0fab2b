// One step of each actor when nothing fails: the state it leaves, in full.
module DeploymentProgress {
  import opened Options
  import opened DeploymentModel
  import opened DeploymentSteps
  import opened DeploymentRuns
  import opened QuickDeploy
  import opened DeploymentProtocol

  // ---- One step of a worker, if nothing fails ----

  ghost predicate Works(sys: System, i: nat, w: Actor)
  {
    i < |sys.actors| && sys.actors[i] == w && w.Worker? && w.job < |sys.db.jobs|
  }

  ghost predicate OnlyActor(sys: System, sys': System, i: nat, next: Actor)
  {
    && i < |sys.actors| && sys'.actors == sys.actors[i := next]
    && sys'.pending == sys.pending && sys'.owed == sys.owed
  }

  lemma Enters(sys: System, i: nat, w: Actor, now: int)
    requires Works(sys, i, w) && w.stage == Waiting && sys.db.jobs[w.job].status == Queued
    requires sys.db.jobs[w.job].kind == DryRun <==> w.task == DryRunTask
    ensures var sys' := Do(sys, Act(i, Go(NoFault)), now);
      && OnlyActor(sys, sys', i, w.(stage := InBody)) && sys'.starts == sys.starts && sys'.bodies == sys.bodies + [w.job]
      && sys'.db == SetJob(sys.db, w.job, sys.db.jobs[w.job].(
           status := if w.task == DryRunTask then DryRunRunning else Deploying,
           startedAt := Some(now), completedAt := None, updatedAt := now))
  {
  }

  function Submission(job: Job, id: JobId, operation: Operation, sum: string, validationId: Option<string>): Attempt
    requires job.targetIdentity.Some?
  {
    Attempt(id, operation, Submitting, validationId, None, job.targetIdentity.value, sum, 2, job.dryRunJobId, RemoteUnknown, 1)
  }

  lemma Begins(sys: System, i: nat, w: Actor, sum: string, directory: string, now: int)
    requires Works(sys, i, w) && w.stage == InBody && w.task != ApprovedTask
    requires var job := sys.db.jobs[w.job]; Running(job.status) && job.activeAttempt.None? && job.targetIdentity.Some?
    ensures var sys' := Do(sys, Act(i, Prepare(sum, directory, NoFault)), now); var n := |sys.db.attempts|;
      && OnlyActor(sys, sys', i, w.(stage := Intended(n, sum))) && sys'.starts == sys.starts && sys'.bodies == sys.bodies
      && sys'.db.approvals == sys.db.approvals
      && sys'.db.attempts == sys.db.attempts
           + [Submission(sys.db.jobs[w.job], w.job, if w.task == DryRunTask then Validate else Deploy, sum, None)]
      && sys'.db.jobs == sys.db.jobs[w.job := sys.db.jobs[w.job].(
           activeAttempt := Some(n), remoteId := None, remoteStatus := RemoteUnknown, evidence := AttemptTracked,
           payloadChecksum := sum, runDirectory := Some(directory), updatedAt := now)]
  {
  }

  lemma Submits(sys: System, i: nat, w: Actor, now: int)
    requires Works(sys, i, w) && w.stage.Intended? && w.stage.attempt < |sys.db.attempts|
    ensures var sys' := Do(sys, Act(i, Go(NoFault)), now); var attempt := sys.db.attempts[w.stage.attempt];
      && OnlyActor(sys, sys', i, w.(stage := Started(w.stage.attempt, w.stage.sum))) && sys'.db == sys.db && sys'.bodies == sys.bodies
      && sys'.starts == sys.starts + [StartCommand(w.job, w.stage.attempt, attempt.operation, attempt.validationId)]
  {
  }

  // Salesforce reports the end of the run.
  lemma Observes(sys: System, i: nat, w: Actor, p: Progress, now: int)
    requires Works(sys, i, w) && w.stage.Started? && RecordProgress(sys.db, w.job, w.stage.attempt, p).Committed?
    ensures var sys' := Do(sys, Act(i, Observe(p, NoFault)), now);
      && OnlyActor(sys, sys', i, w) && sys'.starts == sys.starts && sys'.bodies == sys.bodies
      && sys'.db == RecordProgress(sys.db, w.job, w.stage.attempt, p).db
  {
  }

  lemma Returns(sys: System, i: nat, w: Actor, now: int)
    requires Works(sys, i, w) && w.stage.Started?
    ensures var sys' := Do(sys, Act(i, ReturnSuccess), now);
      OnlyActor(sys, sys', i, w.(stage := Returned(w.stage.sum)))
      && sys'.db == sys.db && sys'.starts == sys.starts && sys'.bodies == sys.bodies
  {
  }

  lemma Ends(sys: System, i: nat, w: Actor, now: int)
    requires Works(sys, i, w) && w.stage.Returned?
    ensures var sys' := Do(sys, Act(i, Go(NoFault)), now);
      OnlyActor(sys, sys', i, w.(stage := Ended(CurrentMark(sys.db, w.job), w.stage.sum)))
      && sys'.db == sys.db && sys'.starts == sys.starts && sys'.bodies == sys.bodies
  {
  }

  lemma StoresArtifacts(sys: System, i: nat, w: Actor, directory: string, testPlan: TestPlan, report: Option<Report>, now: int)
    requires Works(sys, i, w) && w.stage.Ended? && w.task != ApprovedTask && IsChecksum(w.stage.sum)
    requires var job := sys.db.jobs[w.job];
      if w.task == DryRunTask then job.kind == DryRun && job.status == DryRunRunning && !job.prepared
      else job.kind == Deployment && job.dryRunJobId.None? && job.status == Deploying
    ensures var sys' := Do(sys, Act(i, Store(directory, testPlan, report, NoFault)), now);
      && OnlyActor(sys, sys', i, w.(stage := Stored(w.stage.mark))) && sys'.starts == sys.starts && sys'.bodies == sys.bodies
      && sys'.db == SetJob(sys.db, w.job, WithArtifacts(sys.db.jobs[w.job], Artifacts(w.stage.sum, directory, testPlan, report), now))
  {
  }

  // What is handed over: the time, the remote id with the fate of the run, and the attempt as it
  // was read when the run ended.
  function ResultOf(remoteId: Option<string>, mark: Option<AttemptMark>, now: int): Details
  {
    NO_DETAILS.(
      completedAt := Some(now), remoteId := remoteId,
      remoteStatus := Some(if remoteId.Some? then RemoteSucceeded else RemoteNotSubmitted),
      attemptId := if mark.Some? then Some(mark.value.id) else None,
      attemptVersion := if mark.Some? then Some(mark.value.version) else None)
  }

  lemma HandsItOver(sys: System, i: nat, w: Actor, remoteId: Option<string>, now: int)
    requires Works(sys, i, w) && (if w.task == ApprovedTask then w.stage.Ended? else w.stage.Stored?)
    ensures var sys' := Do(sys, Act(i, Finish(remoteId)), now);
      var c := Completion(if w.task == DryRunTask then ApprovalPending else Status.Succeeded, ResultOf(remoteId, w.stage.mark, now));
      && sys'.actors == sys.actors[i := Completer(w.process, w.job, c, Trying)]
      && sys'.db == sys.db && sys'.starts == sys.starts && sys'.bodies == sys.bodies
  {
  }

  ghost predicate Completes(sys: System, i: nat, m: Actor)
  {
    i < |sys.actors| && sys.actors[i] == m && m.Completer? && m.job < |sys.db.jobs|
  }

  lemma StoresResult(sys: System, i: nat, m: Actor, now: int)
    requires Completes(sys, i, m) && m.step == Trying
    requires Transition(sys.db, m.job, m.completion.target, m.completion.details, now).Committed?
    ensures var sys' := Do(sys, Act(i, Go(NoFault)), now);
      && sys'.db == Transition(sys.db, m.job, m.completion.target, m.completion.details, now).db
      && sys'.starts == sys.starts && sys'.bodies == sys.bodies
      && sys'.db.jobs[m.job].status == m.completion.target && sys'.actors == sys.actors[i := Gone]
      && sys'.pending == sys.pending
  {
  }

  // ---- Approval ----

  lemma ApprovalBegins(sys: System, process: ProcessId, q: ApprovalRequest, now: int)
    requires q.dryRunJobId < |sys.db.jobs|
    ensures var sys' := Do(sys, RequestApproval(process, q), now);
      && sys'.actors == sys.actors + [Approver(process, q, sys.db.jobs[q.dryRunJobId])]
      && sys'.db == sys.db && sys'.starts == sys.starts
  {
  }

  lemma Approves(sys: System, i: nat, p: Actor, now: int)
    requires i < |sys.actors| && sys.actors[i] == p && p.Approver? && !Recovering(sys.actors)
    requires ApproveAndQueue(sys.db, p.request, p.read, now).Committed?
    ensures var sys' := Do(sys, Act(i, Go(NoFault)), now); var o := ApproveAndQueue(sys.db, p.request, p.read, now);
      OnlyActor(sys, sys', i, Worker(p.process, o.value, ApprovedTask, Waiting)) && sys'.db == o.db && sys'.starts == sys.starts
  {
  }

  // ---- The approved task reads its evidence ----

  lemma ReadsDeploy(sys: System, i: nat, w: Actor, now: int)
    requires Works(sys, i, w) && w.stage == InBody && w.task == ApprovedTask && sys.db.jobs[w.job].dryRunJobId.Some?
    ensures var sys' := Do(sys, Act(i, Go(NoFault)), now);
      OnlyActor(sys, sys', i, w.(stage := SawDeploy(sys.db.jobs[w.job])))
      && sys'.db == sys.db && sys'.starts == sys.starts && sys'.bodies == sys.bodies
  {
  }

  lemma ReadsDryRun(sys: System, i: nat, w: Actor, now: int)
    requires Works(sys, i, w) && w.stage.SawDeploy? && w.stage.current.dryRunJobId.Some?
    requires w.stage.current.dryRunJobId.value < |sys.db.jobs|
    ensures var sys' := Do(sys, Act(i, Go(NoFault)), now);
      OnlyActor(sys, sys', i, w.(stage := SawDryRun(w.stage.current, sys.db.jobs[w.stage.current.dryRunJobId.value])))
      && sys'.db == sys.db && sys'.starts == sys.starts && sys'.bodies == sys.bodies
  {
  }

  lemma Measures(sys: System, i: nat, w: Actor, now: int)
    requires Works(sys, i, w) && w.stage.SawDryRun? && w.stage.current.dryRunJobId.Some?
    requires var dryRun := w.stage.dryRun;
      && dryRun.kind == DryRun && dryRun.status == ApprovalPending && dryRun.prepared && dryRun.runDirectory.Some?
      && dryRun.testPlan.Some? && dryRun.completedAt.Some? && now <= dryRun.completedAt.value + 1_800_000
    ensures var sum := w.stage.current.payloadChecksum; var sys' := Do(sys, Act(i, Measure(sum)), now);
      OnlyActor(sys, sys', i, w.(stage := SawValidation(w.stage.current, w.stage.dryRun,
                                                        CurrentRow(sys.db, w.stage.current.dryRunJobId.value), sum)))
      && sys'.db == sys.db && sys'.starts == sys.starts && sys'.bodies == sys.bodies
  {
  }

  // The validation id of the Quick Deploy that is chosen on complete evidence, if one is.
  function ChosenId(dryRun: Job, validation: Option<Attempt>): Option<string>
  {
    if Reusable(dryRun, validation) then validation.value.validationId else None
  }

  lemma Chooses(sys: System, i: nat, w: Actor, now: int)
    requires Works(sys, i, w) && w.stage.SawValidation? && w.stage.dryRun.runDirectory.Some?
    requires sys.db.jobs[w.job].kind == Deployment && sys.db.jobs[w.job].status == Deploying
    requires EvidenceComplete(w.stage.dryRun, w.stage.current)
    requires Tracked(w.stage.validation) ==> Validated(w.stage.dryRun, w.stage.validation)
    ensures var quick := ChosenId(w.stage.dryRun, w.stage.validation); var sys' := Do(sys, Act(i, Choose(true, NoFault)), now);
      && OnlyActor(sys, sys', i, w.(stage := Planned(w.stage.sum, w.stage.dryRun.runDirectory.value, quick)))
      && sys'.starts == sys.starts && sys'.bodies == sys.bodies
      && sys'.db == SetJob(sys.db, w.job, sys.db.jobs[w.job].(
           executionMode := Some(if quick.Some? then UseQuickDeploy else UseStandardDeploy),
           reusedValidationId := quick, updatedAt := now))
  {
    ModesExactly(w.stage.dryRun, w.stage.current, w.stage.validation);
    QuickDeployExactly(w.stage.dryRun, w.stage.current, w.stage.validation);
  }

  lemma BeginsPlanned(sys: System, i: nat, w: Actor, now: int)
    requires Works(sys, i, w) && w.stage.Planned?
    requires var job := sys.db.jobs[w.job]; Running(job.status) && job.activeAttempt.None? && job.targetIdentity.Some?
    ensures var sys' := Do(sys, Act(i, Go(NoFault)), now); var n := |sys.db.attempts|;
      && OnlyActor(sys, sys', i, w.(stage := Intended(n, w.stage.sum))) && sys'.starts == sys.starts && sys'.bodies == sys.bodies
      && sys'.db.approvals == sys.db.approvals
      && sys'.db.attempts == sys.db.attempts
           + [Submission(sys.db.jobs[w.job], w.job, if w.stage.quick.Some? then QuickDeploy else Deploy, w.stage.sum, w.stage.quick)]
      && sys'.db.jobs == sys.db.jobs[w.job := sys.db.jobs[w.job].(
           activeAttempt := Some(n), remoteId := None, remoteStatus := RemoteUnknown, evidence := AttemptTracked,
           payloadChecksum := w.stage.sum, runDirectory := Some(w.stage.directory), updatedAt := now)]
  {
  }

  // ---- A failed run ----

  predicate MayThrow(stage: Stage)
  {
    !stage.Waiting? && !stage.Ended? && !stage.Stored? && !stage.Failing?
  }

  // What a task throws in its body is kept for the record: the remote id of an unknown outcome,
  // and that Salesforce itself reported a failure.
  lemma ThrowIsKept(sys: System, i: nat, w: Actor, unknown: bool, id: Option<string>, deployFailed: bool, now: int)
    requires Works(sys, i, w) && MayThrow(w.stage)
    ensures var sys' := Do(sys, Act(i, Throw(unknown, id, deployFailed)), now);
      var details := NO_DETAILS.(
        remoteId := if unknown then id else None,
        remoteStatus := if unknown then Some(RemoteUnknown) else if deployFailed then Some(RemoteFailed) else None);
      OnlyActor(sys, sys', i, w.(stage := Failing(unknown, details)))
      && sys'.db == sys.db && sys'.starts == sys.starts && sys'.bodies == sys.bodies
  {
  }

  // An unknown outcome leaves the job to reconciliation, under the remote id if one is known;
  // any other failure fails it.
  lemma FailureIsRecorded(sys: System, i: nat, w: Actor, now: int)
    requires Works(sys, i, w) && w.stage.Failing? && DetailsHold(sys.db, w.job, w.stage.details)
    requires Running(sys.db.jobs[w.job].status)
    ensures var sys' := Do(sys, Act(i, Go(NoFault)), now); var (job, job') := (sys.db.jobs[w.job], sys'.db.jobs[w.job]);
      && OnlyActor(sys, sys', i, Gone) && |sys'.db.jobs| == |sys.db.jobs| && sys'.db.attempts == sys.db.attempts
      && (job'.status == ReconcileRequired <==> w.stage.unknown) && (job'.status == Status.Failed <==> !w.stage.unknown)
      && (w.stage.details.remoteId.Some? ==> job'.remoteId == w.stage.details.remoteId)
      && (w.stage.details.remoteId.None? ==> job'.remoteId == job.remoteId)
      && (forall j | 0 <= j < |sys.db.jobs| && j != w.job :: sys'.db.jobs[j] == sys.db.jobs[j])
  {
  }

  // ---- Completion whose first write failed ----

  // The result is kept, and the status looked at again ...
  lemma FailedWriteIsKept(sys: System, i: nat, m: Actor, fault: Fault, now: int)
    requires Completes(sys, i, m) && m.step == Trying
    requires fault != NoFault || Transition(sys.db, m.job, m.completion.target, m.completion.details, now).Refused?
    ensures var sys' := Do(sys, Act(i, Go(fault)), now);
      && sys'.actors == sys.actors[i := m.(step := Rechecking)]
      && sys'.pending == sys.pending[(m.process, m.job) := m.completion]
  {
  }

  // ... it is forgotten if it turns out to be stored or its attempt has moved on, and otherwise
  // the job is handed to reconciliation for the time being.
  lemma FailedWriteIsFollowedUp(sys: System, i: nat, m: Actor, now: int)
    requires Completes(sys, i, m) && (m.step == Rechecking || m.step.Suspecting? || m.step == Demoting)
    ensures var sys' := Do(sys, Act(i, Go(NoFault)), now); var status := sys.db.jobs[m.job].status;
      var current := StillCurrent(sys.db, m.job, m.completion.details);
      var forgotten := (m.step == Rechecking && status == m.completion.target) || (m.step.Suspecting? && !current);
      && sys'.pending == (if forgotten then sys.pending - {(m.process, m.job)} else sys.pending)
      && sys'.actors == sys.actors[i :=
           if forgotten || m.step == Demoting || (m.step.Suspecting? && m.step.seen == ReconcileRequired) then Gone
           else if m.step == Rechecking then m.(step := Suspecting(status)) else m.(step := Demoting)]
      && (m.step == Demoting && Transition(sys.db, m.job, ReconcileRequired, m.completion.details, now).Committed? ==>
            sys'.db == Transition(sys.db, m.job, ReconcileRequired, m.completion.details, now).db)
      && (m.step != Demoting ==> sys'.db == sys.db)
  {
  }

  // ---- Retries of completion ----

  lemma RetryBegins(sys: System, process: ProcessId, job: JobId, now: int)
    requires (process, job) in sys.pending
    ensures var sys' := Do(sys, BeginRetry(process, job), now);
      && sys'.actors == sys.actors + [Completer(process, job, sys.pending[(process, job)], Retrying)]
      && sys'.db == sys.db && sys'.pending == sys.pending
  {
  }

  lemma RetryChecksStatus(sys: System, i: nat, m: Actor, now: int)
    requires Completes(sys, i, m) && m.step == Retrying && !Finished(sys.db.jobs[m.job].status)
    ensures var sys' := Do(sys, Act(i, Go(NoFault)), now);
      OnlyActor(sys, sys', i, m.(step := RetryChecking)) && sys'.db == sys.db
  {
  }

  lemma RetryChecksAttempt(sys: System, i: nat, m: Actor, now: int)
    requires Completes(sys, i, m) && m.step == RetryChecking && StillCurrent(sys.db, m.job, m.completion.details)
    ensures var sys' := Do(sys, Act(i, Go(NoFault)), now);
      OnlyActor(sys, sys', i, m.(step := RetryWriting)) && sys'.db == sys.db
  {
  }

  lemma RetryWrites(sys: System, i: nat, m: Actor, now: int)
    requires Completes(sys, i, m) && m.step == RetryWriting
    requires Transition(sys.db, m.job, m.completion.target, m.completion.details, now).Committed?
    ensures var sys' := Do(sys, Act(i, Go(NoFault)), now);
      && sys'.db == Transition(sys.db, m.job, m.completion.target, m.completion.details, now).db
      && sys'.db.jobs[m.job].status == m.completion.target && sys'.actors == sys.actors[i := Gone]
      && sys'.pending == sys.pending - {(m.process, m.job)}
  {
  }

  // ---- Reconciliation ----

  ghost predicate Reconciles(sys: System, i: nat, r: Actor)
  {
    i < |sys.actors| && sys.actors[i] == r && r.Reconciler? && r.job < |sys.db.jobs|
  }

  lemma ReconciliationBegins(sys: System, process: ProcessId, job: JobId, now: int)
    requires job < |sys.db.jobs|
    ensures var sys' := Do(sys, RequestReconcile(process, job), now);
      sys'.actors == sys.actors + [Reconciler(process, job, sys.db.jobs[job], SawJob)] && sys'.db == sys.db
  {
  }

  lemma ReconcilerReads(sys: System, i: nat, r: Actor, now: int)
    requires Reconciles(sys, i, r) && r.reconcileStep == SawJob && r.seen.status == ReconcileRequired
    requires RecordedRemoteId(r.seen, CurrentRow(sys.db, r.job)).Some?
    ensures var sys' := Do(sys, Act(i, Go(NoFault)), now); var attempt := CurrentRow(sys.db, r.job);
      && OnlyActor(sys, sys', i, r.(reconcileStep := SawAttempt(CurrentMark(sys.db, r.job), attempt.Some? && attempt.value.operation == Validate)))
      && sys'.db == sys.db
  {
  }

  lemma ReconcilerHears(sys: System, i: nat, r: Actor, p: Progress, now: int)
    requires Reconciles(sys, i, r) && r.reconcileStep.SawAttempt?
    ensures var sys' := Do(sys, Act(i, Observe(p, NoFault)), now);
      var f := StepReconciler(sys, r, Observe(p, NoFault), now);
      && OnlyActor(sys, sys', i, f.next)
      && (f.call.Some? && RecordReport(sys.db, r.job, r.reconcileStep.mark, p, now).Committed? ==>
            sys'.db == RecordReport(sys.db, r.job, r.reconcileStep.mark, p, now).db)
  {
  }

  lemma ReconcilerConcludes(sys: System, i: nat, r: Actor, now: int)
    requires Reconciles(sys, i, r) && r.reconcileStep.Concluding?
    requires Decide(sys.db.jobs[r.job], r.reconcileStep.next, now, None).Some?
    ensures var sys' := Do(sys, Act(i, Go(NoFault)), now);
      && |sys'.db.jobs| == |sys.db.jobs| && sys'.db.jobs[r.job].status == r.reconcileStep.next
      && sys'.db.attempts == sys.db.attempts
  {
  }

  // ---- An administrator names the remote id ----

  lemma BindingBegins(sys: System, process: ProcessId, job: JobId, operation: Operation, remoteId: string, now: int)
    requires CurrentMark(sys.db, job).Some?
    ensures var sys' := Do(sys, RequestBind(process, job, operation, remoteId), now);
      && sys'.actors == sys.actors + [Binder(process, job, CurrentMark(sys.db, job).value.id, operation, remoteId, false)]
      && sys'.db == sys.db
  {
  }

  lemma Binds(sys: System, i: nat, b: Actor, now: int)
    requires i < |sys.actors| && sys.actors[i] == b && b.Binder? && !b.bound
    requires Bind(sys.db, b.job, b.attempt, b.operation, b.remoteId, now).Committed?
    ensures var sys' := Do(sys, Act(i, Go(NoFault)), now);
      && OnlyActor(sys, sys', i, b.(bound := true))
      && sys'.db == Bind(sys.db, b.job, b.attempt, b.operation, b.remoteId, now).db
  {
  }

  lemma BoundReconciles(sys: System, i: nat, b: Actor, now: int)
    requires i < |sys.actors| && sys.actors[i] == b && b.Binder? && b.bound && b.job < |sys.db.jobs|
    ensures var sys' := Do(sys, Act(i, Go(NoFault)), now);
      OnlyActor(sys, sys', i, Reconciler(b.process, b.job, sys.db.jobs[b.job], SawJob)) && sys'.db == sys.db
  {
  }

  // ---- Recovery ----

  lemma RecoveryBegins(sys: System, process: ProcessId, now: int)
    requires !Working(sys.actors)
    ensures var sys' := Do(sys, BeginRecovery(process), now);
      sys'.actors == sys.actors + [Recoverer(process, Interrupted(sys.db.jobs, 0))] && sys'.db == sys.db
  {
  }

  // A listed job that is as it was listed is failed or left to reconciliation.
  lemma Recovers(sys: System, i: nat, r: Actor, now: int)
    requires i < |sys.actors| && sys.actors[i] == r && r.Recoverer? && r.list != []
    requires var (j, s) := r.list[0]; j < |sys.db.jobs| && sys.db.jobs[j].status == s && (s == Queued || Running(s))
    ensures var sys' := Do(sys, Act(i, Go(NoFault)), now); var (j, s) := r.list[0];
      && OnlyActor(sys, sys', i, r.(list := r.list[1..]))
      && |sys'.db.jobs| == |sys.db.jobs| && sys'.db.attempts == sys.db.attempts
      && sys'.db.jobs[j].status == (if s == Queued then Status.Failed else ReconcileRequired)
      && forall k | 0 <= k < |sys.db.jobs| && k != j :: sys'.db.jobs[k] == sys.db.jobs[k]
  {
  }

  // ---- Expiry, rejection and the death of a process ----

  lemma Expires(sys: System, i: nat, x: Actor, now: int)
    requires i < |sys.actors| && sys.actors[i] == x && x.Expirer? && x.expired != []
    requires x.expired[0] < |sys.db.jobs| && sys.db.jobs[x.expired[0]].status == ValidatedPendingExecution
    ensures var sys' := Do(sys, Act(i, Go(NoFault)), now); var j := x.expired[0];
      && OnlyActor(sys, sys', i, x.(expired := x.expired[1..])) && |sys'.db.jobs| == |sys.db.jobs|
      && sys'.db.jobs[j].status == Status.Failed && sys'.db.jobs[j].completedAt == Some(now)
      && forall k | 0 <= k < |sys.db.jobs| && k != j :: sys'.db.jobs[k] == sys.db.jobs[k]
  {
  }

  lemma Rejects(sys: System, i: nat, x: Actor, now: int)
    requires i < |sys.actors| && sys.actors[i] == x && x.Rejecter? && x.job < |sys.db.jobs| && sys.db.jobs[x.job].status == Queued
    ensures var sys' := Do(sys, Act(i, Go(NoFault)), now);
      && OnlyActor(sys, sys', i, Gone) && |sys'.db.jobs| == |sys.db.jobs| && sys'.db.jobs[x.job].status == Status.Failed
      && forall k | 0 <= k < |sys.db.jobs| && k != x.job :: sys'.db.jobs[k] == sys.db.jobs[k]
  {
  }

  // A process that dies takes its actors and its memory with it, and nothing else.
  lemma CrashTakesItsOwn(sys: System, process: ProcessId, now: int)
    ensures var sys' := Do(sys, Crash(process), now);
      && sys'.db == sys.db && sys'.starts == sys.starts && sys'.bodies == sys.bodies && |sys'.actors| == |sys.actors|
      && (forall i | 0 <= i < |sys.actors| :: !sys'.actors[i].Gone? ==> sys'.actors[i] == sys.actors[i] && sys'.actors[i].process != process)
      && (forall i | 0 <= i < |sys.actors| && !sys.actors[i].Gone? && sys.actors[i].process != process :: sys'.actors[i] == sys.actors[i])
      && (forall key :: key in sys'.pending <==> key in sys.pending && key.0 != process)
      && (forall key | key in sys'.pending :: sys'.pending[key] == sys.pending[key])
  {
  }
}
