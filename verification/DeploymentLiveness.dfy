// What can always still be done: from every reached state an accepted job can be brought to
// its end, and any new valid request can be validated, approved and deployed. No guard of the
// protocol leaves a job stuck.
module DeploymentLiveness {
  import opened Options
  import opened DeploymentModel
  import opened DeploymentSteps
  import opened DeploymentRuns
  import opened QuickDeploy
  import opened DeploymentDiscipline
  import opened DeploymentProtocol
  import opened DeploymentSafety
  import opened DeploymentInvariant
  import opened DeploymentTheorems
  import opened DeploymentApproval
  import opened DeploymentReports
  import opened DeploymentProgress

  lemma LeadsHere(sys: System)
    ensures Leads(sys, sys)
  {
    assert Play(sys, []) == sys;
  }

  lemma LeadsOn(sys: System, middle: System, e: Event, now: int)
    requires Leads(sys, middle)
    ensures Leads(sys, Do(middle, e, now))
  {
    var events :| Play(sys, events) == middle;
    var longer := events + [When(now, e)];
    assert longer[..|longer| - 1] == events;
    assert Play(sys, longer) == Do(middle, e, now);
  }

  // ---- What every queued job has, and has not ----

  // Every job has a recorded target org, and one of its own has no artifacts before it runs.
  predicate Fresh(job: Job)
  {
    job.targetIdentity.Some? && (job.status == Queued && job.dryRunJobId.None? ==> !job.prepared)
  }

  lemma NewJobsAreFresh(db: Db, c: Call, now: int, j: JobId)
    requires |db.jobs| <= j < |Apply(db, c, now).jobs|
    ensures Fresh(Apply(db, c, now).jobs[j])
  {
  }

  lemma QueuedAreNotPrepared(db: Db, c: Call, now: int, j: JobId)
    requires j < |db.jobs| && j < |Apply(db, c, now).jobs| && Apply(db, c, now).jobs[j].status == Queued
    ensures db.jobs[j].status == Queued && Apply(db, c, now).jobs[j].prepared == db.jobs[j].prepared
  {
  }

  lemma {:induction false} AllFresh(calls: seq<TimedCall>, j: JobId)
    requires j < |Run(EMPTY, calls).jobs|
    ensures Fresh(Run(EMPTY, calls).jobs[j])
  {
    if calls != [] {
      var last := |calls| - 1;
      var before := Run(EMPTY, calls[..last]);
      RunKeeps(EMPTY, calls[..last]);
      StepKeeps(before, calls[last].call, calls[last].now);
      if j < |before.jobs| {
        AllFresh(calls[..last], j);
        assert JobMoves(before.jobs[j], Run(EMPTY, calls).jobs[j]);
        if Run(EMPTY, calls).jobs[j].status == Queued { QueuedAreNotPrepared(before, calls[last].call, calls[last].now, j); }
      } else {
        NewJobsAreFresh(before, calls[last].call, calls[last].now, j);
      }
    }
  }

  lemma FreshWhenReached(sys: System, j: JobId)
    requires Reached(sys) && j < |sys.db.jobs|
    ensures Fresh(sys.db.jobs[j])
  {
    ReachedByRepositories(sys);
    var calls :| Run(EMPTY, calls) == sys.db;
    AllFresh(calls, j);
  }

  // ---- Dry runs and direct deployments ----

  // The worker is in the middle of its submission: the intent is stored and is the job's.
  ghost predicate MidSubmission(sys: System, i: nat, w: Actor, sum: string)
  {
    && Works(sys, i, w) && w.stage.Intended? && w.stage.sum == sum && w.task != ApprovedTask
    && var job := sys.db.jobs[w.job]; var a := w.stage.attempt;
       && a < |sys.db.attempts| && job.activeAttempt == Some(a) && sys.db.attempts[a].jobId == w.job
       && sys.db.attempts[a].operation == (if w.task == DryRunTask then Validate else Deploy)
       && sys.db.attempts[a].state == SubmissionState.Submitting && OwnId(sys.db.attempts[a]).None?
       && sys.db.attempts[a].validationId.None?
       && sys.db.attempts[a].payloadChecksum == sum && sys.db.attempts[a].digestVersion == 2
       && Some(sys.db.attempts[a].targetIdentity) == job.targetIdentity && job.runDirectory.Some?
       && (if w.task == DryRunTask then job.kind == DryRun && job.status == DryRunRunning && !job.prepared
           else job.kind == Deployment && job.dryRunJobId.None? && job.status == Deploying)
  }

  // The job's own attempt ended in success under the given remote id.
  ghost predicate Traced(db: Db, j: JobId, task: Task, sum: string, remoteId: string)
    requires j < |db.jobs|
  {
    && db.jobs[j].activeAttempt.Some? && db.jobs[j].activeAttempt.value < |db.attempts|
    && var attempt := db.attempts[db.jobs[j].activeAttempt.value];
       && attempt.jobId == j && attempt.operation == (if task == DryRunTask then Validate else Deploy)
       && attempt.state == Terminal && attempt.remoteStatus == RemoteSucceeded && OwnId(attempt) == Some(remoteId)
       && attempt.payloadChecksum == sum && attempt.digestVersion == 2 && Some(attempt.targetIdentity) == db.jobs[j].targetIdentity
  }

  // What one worker does not touch while it brings its job to an end.
  ghost predicate SameOtherwise(before: System, after: System, i: nat, j: JobId)
  {
    && |after.db.jobs| == |before.db.jobs| && j < |after.db.jobs| && after.db.approvals == before.db.approvals
    && i < |before.actors| && |after.actors| == |before.actors|
    && (forall k | 0 <= k < |before.actors| && k != i :: after.actors[k] == before.actors[k])
    && !after.actors[i].Recoverer?
    && var (job, job') := (before.db.jobs[j], after.db.jobs[j]);
       && job'.kind == job.kind && job'.targetAlias == job.targetAlias && job'.targetIdentity == job.targetIdentity
       && job'.dryRunJobId == job.dryRunJobId
  }

  // The job is finished and its row holds what was stored.
  ghost predicate Delivered(db: Db, j: JobId, task: Task, sum: string, testPlan: TestPlan, report: Option<Report>)
  {
    && j < |db.jobs| && var job := db.jobs[j];
    && job.status == (if task == DryRunTask then ApprovalPending else Status.Succeeded)
    && job.prepared && job.payloadChecksum == sum && job.testPlan == Some(testPlan) && job.dryRunResult == report
    && job.completedAt.Some?
  }

  // A queued job that its worker has not touched yet.
  ghost predicate Accepted(sys: System, i: nat, w: Actor)
  {
    && Works(sys, i, w) && w.stage == Waiting && w.task != ApprovedTask
    && var job := sys.db.jobs[w.job];
       && job.status == Queued && !job.prepared && job.targetIdentity.Some? && job.activeAttempt.None? && job.dryRunJobId.None?
       && (job.kind == DryRun <==> w.task == DryRunTask)
  }

  lemma AcceptedWhenReached(sys: System, i: nat)
    requires Reached(sys) && i < |sys.actors| && sys.actors[i].Worker? && sys.actors[i].stage == Waiting
    requires sys.actors[i].task != ApprovedTask && sys.actors[i].job < |sys.db.jobs|
    requires sys.db.jobs[sys.actors[i].job].status == Queued
    ensures Accepted(sys, i, sys.actors[i])
  {
    Reachable(sys);
    assert ActorFine(sys.db, sys.actors[i]) && JobFine(sys.db, sys.actors[i].job);
    FreshWhenReached(sys, sys.actors[i].job);
  }

  lemma AcceptedBegins(sys: System, i: nat, w: Actor, sum: string, directory: string, now: int) returns (sys': System)
    requires Accepted(sys, i, w)
    ensures Leads(sys, sys') && sys'.starts == sys.starts
    ensures MidSubmission(sys', i, w.(stage := Intended(|sys.db.attempts|, sum)), sum)
    ensures SameOtherwise(sys, sys', i, w.job)
  {
    LeadsHere(sys);
    Enters(sys, i, w, now);
    LeadsOn(sys, sys, Act(i, Go(NoFault)), now);
    var inBody := Do(sys, Act(i, Go(NoFault)), now);
    Begins(inBody, i, w.(stage := InBody), sum, directory, now);
    LeadsOn(sys, inBody, Act(i, Prepare(sum, directory, NoFault)), now);
    sys' := Do(inBody, Act(i, Prepare(sum, directory, NoFault)), now);
  }

  // What Salesforce reports at the end of a good run.
  function GoodEnd(task: Task, remoteId: string, now: int): Progress
  {
    Progress(if task == DryRunTask then DryRun else Deployment, remoteId, "Succeeded", true, Some(true),
             Some(task == DryRunTask), now)
  }

  lemma GoodEndIsRecorded(db: Db, j: JobId, a: AttemptId, task: Task, sum: string, remoteId: string, now: int)
    requires j < |db.jobs| && a < |db.attempts| && db.jobs[j].activeAttempt == Some(a) && db.attempts[a].jobId == j
    requires Running(db.jobs[j].status) && db.attempts[a].state == SubmissionState.Submitting && OwnId(db.attempts[a]).None?
    requires db.attempts[a].operation == (if task == DryRunTask then Validate else Deploy)
    requires db.attempts[a].payloadChecksum == sum && db.attempts[a].digestVersion == 2
    requires Some(db.attempts[a].targetIdentity) == db.jobs[j].targetIdentity
    ensures var o := RecordProgress(db, j, a, GoodEnd(task, remoteId, now));
      && o.Committed? && |o.db.jobs| == |db.jobs| && Traced(o.db, j, task, sum, remoteId)
      && o.db.jobs[j] == db.jobs[j].(remoteId := Some(remoteId), remoteStatus := RemoteSucceeded, updatedAt := now)
  {
    var p := GoodEnd(task, remoteId, now);
    ProgressAcceptedExactly(db, j, a, p);
    ProgressRecordsExactly(db, j, a, p);
    assert p.status in {"Succeeded", "SucceededPartial"};
  }

  lemma SubmissionRuns(sys: System, middle: System, i: nat, w: Actor, sum: string, remoteId: string, now: int)
    returns (sys': System)
    requires Leads(sys, middle) && MidSubmission(middle, i, w, sum)
    ensures Leads(sys, sys') && sys'.starts == middle.starts + [StartCommand(w.job, w.stage.attempt,
      if w.task == DryRunTask then Validate else Deploy, None)]
    ensures Works(sys', i, w.(stage := Started(w.stage.attempt, sum))) && Traced(sys'.db, w.job, w.task, sum, remoteId)
    ensures sys'.db.jobs[w.job] == middle.db.jobs[w.job].(remoteId := Some(remoteId), remoteStatus := RemoteSucceeded, updatedAt := now)
    ensures |sys'.db.jobs| == |middle.db.jobs| && sys'.actors == middle.actors[i := w.(stage := Started(w.stage.attempt, sum))]
    ensures sys'.db.approvals == middle.db.approvals
  {
    Submits(middle, i, w, now);
    LeadsOn(sys, middle, Act(i, Go(NoFault)), now);
    var started := Do(middle, Act(i, Go(NoFault)), now);
    var w1 := w.(stage := Started(w.stage.attempt, sum));
    GoodEndIsRecorded(started.db, w.job, w.stage.attempt, w.task, sum, remoteId, now);
    Observes(started, i, w1, GoodEnd(w.task, remoteId, now), now);
    LeadsOn(sys, started, Act(i, Observe(GoodEnd(w.task, remoteId, now), NoFault)), now);
    sys' := Do(started, Act(i, Observe(GoodEnd(w.task, remoteId, now), NoFault)), now);
  }

  lemma RunEnds(sys: System, middle: System, i: nat, w: Actor, now: int) returns (sys': System)
    requires Leads(sys, middle) && Works(middle, i, w) && w.stage.Started? && CurrentMark(middle.db, w.job).Some?
    ensures Leads(sys, sys') && sys'.db == middle.db && sys'.starts == middle.starts
    ensures sys'.actors == middle.actors[i := w.(stage := Ended(CurrentMark(middle.db, w.job), w.stage.sum))]
    ensures Works(sys', i, w.(stage := Ended(CurrentMark(middle.db, w.job), w.stage.sum)))
  {
    Returns(middle, i, w, now);
    LeadsOn(sys, middle, Act(i, ReturnSuccess), now);
    var returned := Do(middle, Act(i, ReturnSuccess), now);
    Ends(returned, i, w.(stage := Returned(w.stage.sum)), now);
    LeadsOn(sys, returned, Act(i, Go(NoFault)), now);
    sys' := Do(returned, Act(i, Go(NoFault)), now);
  }

  lemma EndedIsStored(sys: System, middle: System, i: nat, w: Actor, directory: string, testPlan: TestPlan,
                      report: Option<Report>, remoteId: string, now: int) returns (sys': System)
    requires Leads(sys, middle) && Works(middle, i, w) && w.stage.Ended? && IsChecksum(w.stage.sum) && w.task != ApprovedTask
    requires var job := middle.db.jobs[w.job];
      if w.task == DryRunTask then job.kind == DryRun && job.status == DryRunRunning && !job.prepared
      else job.kind == Deployment && job.dryRunJobId.None? && job.status == Deploying
    ensures Leads(sys, sys') && sys'.starts == middle.starts
    ensures sys'.db == SetJob(middle.db, w.job,
      WithArtifacts(middle.db.jobs[w.job], Artifacts(w.stage.sum, directory, testPlan, report), now))
    ensures sys'.actors == middle.actors[i := Completer(w.process, w.job,
      Completion(if w.task == DryRunTask then ApprovalPending else Status.Succeeded,
                 CompletionDetails(Some(remoteId), w.stage.mark, now)), Trying)]
  {
    StoresArtifacts(middle, i, w, directory, testPlan, report, now);
    LeadsOn(sys, middle, Act(i, Store(directory, testPlan, report, NoFault)), now);
    var stored := Do(middle, Act(i, Store(directory, testPlan, report, NoFault)), now);
    HandsItOver(stored, i, w.(stage := Stored(w.stage.mark)), Some(remoteId), now);
    LeadsOn(sys, stored, Act(i, Finish(Some(remoteId))), now);
    sys' := Do(stored, Act(i, Finish(Some(remoteId))), now);
  }

  lemma EndedIsDelivered(sys: System, middle: System, i: nat, w: Actor, sum: string, directory: string, testPlan: TestPlan,
                         report: Option<Report>, remoteId: string, now: int) returns (sys': System)
    requires Leads(sys, middle) && Works(middle, i, w) && w.stage.Ended? && w.stage.sum == sum && IsChecksum(sum)
    requires w.task != ApprovedTask && w.stage.mark == CurrentMark(middle.db, w.job)
    requires Traced(middle.db, w.job, w.task, sum, remoteId)
    requires var job := middle.db.jobs[w.job];
      if w.task == DryRunTask then job.kind == DryRun && job.status == DryRunRunning && !job.prepared
      else job.kind == Deployment && job.dryRunJobId.None? && job.status == Deploying
    ensures Leads(sys, sys') && Delivered(sys'.db, w.job, w.task, sum, testPlan, report) && sys'.starts == middle.starts
    ensures Traced(sys'.db, w.job, w.task, sum, remoteId) && sys'.db.jobs[w.job].runDirectory == Some(directory)
    ensures sys'.db.jobs[w.job].completedAt == Some(now) && SameOtherwise(middle, sys', i, w.job)
  {
    var handed := EndedIsStored(sys, middle, i, w, directory, testPlan, report, remoteId, now);
    StoresResult(handed, i, handed.actors[i], now);
    LeadsOn(sys, handed, Act(i, Go(NoFault)), now);
    sys' := Do(handed, Act(i, Go(NoFault)), now);
  }

  // From every reached state a queued dry run or direct deployment can be finished, with any
  // payload, plan and report: one start command is issued, the row holds what was stored and
  // its attempt ended in success.
  lemma AcceptedJobsCanFinish(sys: System, i: nat, sum: string, directory: string, testPlan: TestPlan,
                              report: Option<Report>, remoteId: string, now: int) returns (sys': System)
    requires Reached(sys) && i < |sys.actors| && sys.actors[i].Worker? && sys.actors[i].stage == Waiting
    requires sys.actors[i].task != ApprovedTask && sys.actors[i].job < |sys.db.jobs| && IsChecksum(sum)
    requires sys.db.jobs[sys.actors[i].job].status == Queued
    ensures var (j, task) := (sys.actors[i].job, sys.actors[i].task);
      && Leads(sys, sys') && Delivered(sys'.db, j, task, sum, testPlan, report) && Traced(sys'.db, j, task, sum, remoteId)
      && sys'.db.jobs[j].runDirectory == Some(directory) && sys'.db.jobs[j].completedAt == Some(now)
      && SameOtherwise(sys, sys', i, j)
      && sys'.starts == sys.starts + [StartCommand(j, |sys.db.attempts|, if task == DryRunTask then Validate else Deploy, None)]
  {
    var w := sys.actors[i];
    AcceptedWhenReached(sys, i);
    var begun := AcceptedBegins(sys, i, w, sum, directory, now);
    var w1 := w.(stage := Intended(|sys.db.attempts|, sum));
    var run := SubmissionRuns(sys, begun, i, w1, sum, remoteId, now);
    var ended := RunEnds(sys, run, i, w1.(stage := Started(|sys.db.attempts|, sum)), now);
    sys' := EndedIsDelivered(sys, ended, i, ended.actors[i], sum, directory, testPlan, report, remoteId, now);
  }

  // ---- Approved deployments ----

  // The rows of an approved job let it be submitted.
  ghost predicate MayDeploy(db: Db, j: JobId)
  {
    && j < |db.jobs| && db.jobs[j].dryRunJobId.Some? && db.jobs[j].dryRunJobId.value < |db.jobs|
    && var d := db.jobs[j].dryRunJobId.value; var dryRun := db.jobs[d];
       && dryRun.runDirectory.Some? && dryRun.testPlan.Some? && CheckOnlySuccess(dryRun.dryRunResult)
       && (Tracked(CurrentRow(db, d)) ==> Validated(dryRun, CurrentRow(db, d)))
  }

  // What is read of the evidence while nobody writes.
  ghost predicate Reads(sys: System, i: nat, w: Actor, d: JobId, now: int)
  {
    && Works(sys, i, w) && w.task == ApprovedTask && d < |sys.db.jobs|
    && sys.db.jobs[w.job].kind == Deployment && sys.db.jobs[w.job].status == Deploying
    && sys.db.jobs[w.job].dryRunJobId == Some(d) && sys.db.jobs[w.job].targetIdentity.Some?
    && sys.db.jobs[w.job].activeAttempt.None?
    && var dryRun := sys.db.jobs[d];
       && dryRun.kind == DryRun && dryRun.completedAt == Some(now) && dryRun.runDirectory.Some?
       && EvidenceComplete(dryRun, sys.db.jobs[w.job])
       && (Tracked(CurrentRow(sys.db, d)) ==> Validated(dryRun, CurrentRow(sys.db, d)))
  }

  lemma EvidenceIsRead(sys: System, middle: System, i: nat, w: Actor, d: JobId, now: int) returns (sys': System)
    requires Leads(sys, middle) && Reads(middle, i, w, d, now) && w.stage == InBody
    ensures Leads(sys, sys') && sys'.db == middle.db && sys'.starts == middle.starts
    ensures Works(sys', i, w.(stage := SawValidation(middle.db.jobs[w.job], middle.db.jobs[d], CurrentRow(middle.db, d),
                                                     middle.db.jobs[w.job].payloadChecksum)))
  {
    var current, dryRun := middle.db.jobs[w.job], middle.db.jobs[d];
    ReadsDeploy(middle, i, w, now);
    LeadsOn(sys, middle, Act(i, Go(NoFault)), now);
    var one := Do(middle, Act(i, Go(NoFault)), now);
    ReadsDryRun(one, i, w.(stage := SawDeploy(current)), now);
    LeadsOn(sys, one, Act(i, Go(NoFault)), now);
    var two := Do(one, Act(i, Go(NoFault)), now);
    Measures(two, i, w.(stage := SawDryRun(current, dryRun)), now);
    LeadsOn(sys, two, Act(i, Measure(current.payloadChecksum)), now);
    sys' := Do(two, Act(i, Measure(current.payloadChecksum)), now);
  }

  lemma ReadIsSubmitted(sys: System, middle: System, i: nat, w: Actor, d: JobId, now: int) returns (sys': System)
    requires Leads(sys, middle) && Reads(middle, i, w, d, now) && w.stage.SawValidation?
    requires w.stage.current == middle.db.jobs[w.job] && w.stage.dryRun == middle.db.jobs[d]
    requires w.stage.validation == CurrentRow(middle.db, d)
    ensures Leads(sys, sys') && sys'.starts == middle.starts
    ensures var n := |middle.db.attempts|;
      && Works(sys', i, w.(stage := Intended(n, w.stage.sum))) && |sys'.db.attempts| == n + 1
      && sys'.db.jobs[w.job].activeAttempt == Some(n) && sys'.db.jobs[w.job].status == Deploying
      && sys'.db.jobs[w.job].kind == Deployment
      && sys'.db.attempts[n].jobId == w.job && sys'.db.attempts[n].payloadChecksum == w.stage.sum
      && sys'.db.attempts[n].validationId == ChosenId(w.stage.dryRun, w.stage.validation)
      && sys'.db.attempts[n].operation == if ChosenId(w.stage.dryRun, w.stage.validation).Some? then QuickDeploy else Deploy
  {
    Chooses(middle, i, w, now);
    LeadsOn(sys, middle, Act(i, Choose(true, NoFault)), now);
    var planned := Do(middle, Act(i, Choose(true, NoFault)), now);
    BeginsPlanned(planned, i, planned.actors[i], now);
    LeadsOn(sys, planned, Act(i, Go(NoFault)), now);
    sys' := Do(planned, Act(i, Go(NoFault)), now);
  }

  lemma SubmittedSucceeds(sys: System, middle: System, i: nat, w: Actor, remoteId: string, now: int) returns (sys': System)
    requires Leads(sys, middle) && Works(middle, i, w) && w.task == ApprovedTask && w.stage.Intended?
    requires var job := middle.db.jobs[w.job]; var a := w.stage.attempt;
      && a < |middle.db.attempts| && job.activeAttempt == Some(a) && middle.db.attempts[a].jobId == w.job
      && job.kind == Deployment && job.status == Deploying
    ensures Leads(sys, sys') && w.job < |sys'.db.jobs| && sys'.db.jobs[w.job].status == Status.Succeeded
    ensures sys'.starts == middle.starts + [StartCommand(w.job, w.stage.attempt,
      middle.db.attempts[w.stage.attempt].operation, middle.db.attempts[w.stage.attempt].validationId)]
  {
    Submits(middle, i, w, now);
    LeadsOn(sys, middle, Act(i, Go(NoFault)), now);
    var started := Do(middle, Act(i, Go(NoFault)), now);
    Returns(started, i, started.actors[i], now);
    LeadsOn(sys, started, Act(i, ReturnSuccess), now);
    var returned := Do(started, Act(i, ReturnSuccess), now);
    Ends(returned, i, returned.actors[i], now);
    LeadsOn(sys, returned, Act(i, Go(NoFault)), now);
    var ended := Do(returned, Act(i, Go(NoFault)), now);
    HandsItOver(ended, i, ended.actors[i], Some(remoteId), now);
    LeadsOn(sys, ended, Act(i, Finish(Some(remoteId))), now);
    var handed := Do(ended, Act(i, Finish(Some(remoteId))), now);
    StoresResult(handed, i, handed.actors[i], now);
    LeadsOn(sys, handed, Act(i, Go(NoFault)), now);
    sys' := Do(handed, Act(i, Go(NoFault)), now);
  }

  lemma ApprovedRows(sys: System, w: Actor, d: JobId)
    requires Reached(sys) && w in sys.actors && w.Worker? && w.task == ApprovedTask && w.job < |sys.db.jobs|
    requires sys.db.jobs[w.job].status == Queued && MayDeploy(sys.db, w.job) && sys.db.jobs[w.job].dryRunJobId == Some(d)
    ensures d < |sys.db.jobs| && d != w.job && sys.db.jobs[d].kind == DryRun && sys.db.jobs[w.job].kind == Deployment
    ensures EvidenceComplete(sys.db.jobs[d], sys.db.jobs[w.job])
    ensures sys.db.jobs[w.job].targetIdentity.Some? && sys.db.jobs[w.job].activeAttempt.None?
    ensures sys.db.jobs[d].completedAt.Some?
  {
    Reachable(sys);
    var i :| 0 <= i < |sys.actors| && sys.actors[i] == w;
    assert ActorFine(sys.db, w) && JobFine(sys.db, w.job) && RowSys(sys.db, w.job);
    FreshWhenReached(sys, w.job);
    ApprovedJobAndDryRun(sys.db, w.job);
    assert JobFine(sys.db, d);
  }

  lemma ApprovedEnters(sys: System, i: nat, w: Actor, d: JobId, now: int) returns (sys': System)
    requires Works(sys, i, w) && w.stage == Waiting && w.task == ApprovedTask
    requires sys.db.jobs[w.job].status == Queued && MayDeploy(sys.db, w.job)
    requires d < |sys.db.jobs| && d != w.job && sys.db.jobs[w.job].dryRunJobId == Some(d) && sys.db.jobs[d].completedAt == Some(now)
    requires sys.db.jobs[d].kind == DryRun && sys.db.jobs[w.job].kind == Deployment
    requires EvidenceComplete(sys.db.jobs[d], sys.db.jobs[w.job])
    requires sys.db.jobs[w.job].targetIdentity.Some? && sys.db.jobs[w.job].activeAttempt.None?
    ensures Leads(sys, sys') && sys'.starts == sys.starts && |sys'.db.attempts| == |sys.db.attempts|
    ensures Reads(sys', i, w.(stage := InBody), d, now) && sys'.db.jobs[d] == sys.db.jobs[d]
    ensures CurrentRow(sys'.db, d) == CurrentRow(sys.db, d)
    ensures sys'.db.jobs[w.job].payloadChecksum == sys.db.jobs[d].payloadChecksum
  {
    LeadsHere(sys);
    Enters(sys, i, w, now);
    LeadsOn(sys, sys, Act(i, Go(NoFault)), now);
    sys' := Do(sys, Act(i, Go(NoFault)), now);
  }

  // From every reached state the queued job of an approval can be deployed, if the evidence of
  // its dry run holds up: one start command, a Quick Deploy exactly if the tracked validation
  // can be reused.
  lemma ApprovedJobsCanSucceed(sys: System, i: nat, remoteId: string) returns (sys': System)
    requires Reached(sys) && i < |sys.actors| && sys.actors[i].Worker? && sys.actors[i].stage == Waiting
    requires sys.actors[i].task == ApprovedTask && sys.actors[i].job < |sys.db.jobs|
    requires sys.db.jobs[sys.actors[i].job].status == Queued && MayDeploy(sys.db, sys.actors[i].job)
    ensures var j := sys.actors[i].job; var d := sys.db.jobs[j].dryRunJobId.value;
      var chosen := ChosenId(sys.db.jobs[d], CurrentRow(sys.db, d));
      && Leads(sys, sys') && j < |sys'.db.jobs| && sys'.db.jobs[j].status == Status.Succeeded
      && sys'.starts == sys.starts + [StartCommand(j, |sys.db.attempts|,
                                                   if chosen.Some? then QuickDeploy else Deploy, chosen)]
  {
    var w := sys.actors[i];
    var d := sys.db.jobs[w.job].dryRunJobId.value;
    ApprovedRows(sys, w, d);
    var now := sys.db.jobs[d].completedAt.value;
    var inBody := ApprovedEnters(sys, i, w, d, now);
    var read := EvidenceIsRead(sys, inBody, i, w.(stage := InBody), d, now);
    var w1 := read.actors[i];
    var begun := ReadIsSubmitted(sys, read, i, w1, d, now);
    sys' := SubmittedSucceeds(sys, begun, i, begun.actors[i], remoteId, now);
  }

  // ---- From a request to a deployment ----

  lemma {:induction false} PlayTwice(sys: System, first: seq<TimedEvent>, second: seq<TimedEvent>)
    ensures Play(Play(sys, first), second) == Play(sys, first + second)
  {
    if second == [] {
      assert first + second == first;
    } else {
      var last := |second| - 1;
      PlayTwice(sys, first, second[..last]);
      assert (first + second)[..|first + second| - 1] == first + second[..last];
    }
  }

  lemma LeadsAcross(a: System, b: System, c: System)
    requires Leads(a, b) && Leads(b, c)
    ensures Leads(a, c) && (Reached(a) ==> Reached(b))
  {
    var first :| Play(a, first) == b;
    var second :| Play(b, second) == c;
    PlayTwice(a, first, second);
    if Reached(a) {
      var events :| Play(BOOT, events) == a;
      PlayTwice(BOOT, events, first);
    }
  }

  lemma ReachedOn(sys: System, sys': System)
    requires Reached(sys) && Leads(sys, sys')
    ensures Reached(sys')
  {
    LeadsHere(sys');
    LeadsAcross(sys, sys', sys');
  }

  predicate ValidRequest(input: NewJob)
  {
    IsClientRequestId(input.clientRequestId) && IsChecksum(input.requestHash) && IsChecksum(input.payloadChecksum)
  }

  // A new, valid request for a dry run is queued, with a worker that waits for its turn.
  lemma RequestIsQueued(sys: System, process: ProcessId, input: NewJob, now: int) returns (sys': System)
    requires ValidRequest(input) && !Recovering(sys.actors)
    requires forall j | 0 <= j < |sys.db.jobs| :: !SameRequest(sys.db.jobs[j], DryRun, input.createdBy, input.clientRequestId)
    ensures Leads(sys, sys') && sys'.starts == sys.starts && !Recovering(sys'.actors)
    ensures sys'.db == sys.db.(jobs := sys.db.jobs + [FreshJob(DryRun, input, now)])
    ensures sys'.actors == sys.actors + [Worker(process, |sys.db.jobs|, DryRunTask, Waiting)]
  {
    assert FindRequest(sys.db.jobs, DryRun, input.createdBy, input.clientRequestId).None?;
    LeadsHere(sys);
    LeadsOn(sys, sys, RequestDryRun(process, input, NoFault), now);
    sys' := Do(sys, RequestDryRun(process, input, NoFault), now);
  }

  lemma AddsOneJob(db: Db, q: ApprovalRequest, read: Job, now: int)
    requires ApproveAndQueue(db, q, read, now).Committed? && FindApproval(db.approvals, q.dryRunJobId).None?
    ensures q.dryRunJobId < |db.jobs| && ApproveAndQueue(db, q, read, now).value == |db.jobs|
    ensures ApproveAndQueue(db, q, read, now).db.attempts == db.attempts
    ensures ApproveAndQueue(db, q, read, now).db.jobs
      == db.jobs + [ApprovedJob(q.dryRunJobId, db.jobs[q.dryRunJobId], read, q.approvedBy, now)]
  {
  }

  // A first request to approve a dry run that it may approve is queued in the same way.
  lemma ApprovalIsQueued(sys: System, process: ProcessId, q: ApprovalRequest, now: int) returns (sys': System)
    requires !Recovering(sys.actors) && q.dryRunJobId < |sys.db.jobs|
    requires ApproveAndQueue(sys.db, q, sys.db.jobs[q.dryRunJobId], now).Committed?
    requires FindApproval(sys.db.approvals, q.dryRunJobId).None?
    ensures Leads(sys, sys') && sys'.starts == sys.starts
    ensures sys'.db.attempts == sys.db.attempts && |sys'.db.jobs| == |sys.db.jobs| + 1
    ensures sys'.db.jobs == sys.db.jobs + [ApprovedJob(q.dryRunJobId, sys.db.jobs[q.dryRunJobId], sys.db.jobs[q.dryRunJobId], q.approvedBy, now)]
    ensures sys'.actors == sys.actors + [Worker(process, |sys.db.jobs|, ApprovedTask, Waiting)]
  {
    var i, read := |sys.actors|, sys.db.jobs[q.dryRunJobId];
    LeadsHere(sys);
    ApprovalBegins(sys, process, q, now);
    LeadsOn(sys, sys, RequestApproval(process, q), now);
    var asked := Do(sys, RequestApproval(process, q), now);
    Approves(asked, i, Approver(process, q, read), now);
    AddsOneJob(sys.db, q, read, now);
    LeadsOn(sys, asked, Act(i, Go(NoFault)), now);
    sys' := Do(asked, Act(i, Go(NoFault)), now);
  }

  // The dry run has been brought to its end, so it may be approved and then deployed.
  ghost predicate ReadyToApprove(db: Db, d: JobId, alias: string, sum: string, directory: string, testPlan: TestPlan,
                             report: Report, validationId: string, now: int)
  {
    && d < |db.jobs| && Delivered(db, d, DryRunTask, sum, testPlan, Some(report)) && Traced(db, d, DryRunTask, sum, validationId)
    && db.jobs[d].kind == DryRun && db.jobs[d].targetAlias == alias && db.jobs[d].runDirectory == Some(directory)
    && db.jobs[d].completedAt == Some(now) && db.jobs[d].targetIdentity.Some? && db.jobs[d].payloadDigestVersion == 2
  }

  lemma DryRunIsDelivered(sys: System, process: ProcessId, input: NewJob, sum: string, directory: string, testPlan: TestPlan,
                          report: Report, validationId: string, now: int) returns (sys': System)
    requires Reached(sys) && !Recovering(sys.actors) && ValidRequest(input) && IsChecksum(sum)
    requires forall j | 0 <= j < |sys.db.jobs| :: !SameRequest(sys.db.jobs[j], DryRun, input.createdBy, input.clientRequestId)
    ensures Leads(sys, sys') && Reached(sys') && !Recovering(sys'.actors)
    ensures |sys'.db.jobs| == |sys.db.jobs| + 1 && sys'.db.approvals == sys.db.approvals
    ensures ReadyToApprove(sys'.db, |sys.db.jobs|, input.targetAlias, sum, directory, testPlan, report, validationId, now)
    ensures sys'.starts == sys.starts + [StartCommand(|sys.db.jobs|, |sys.db.attempts|, Validate, None)]
  {
    var queued := RequestIsQueued(sys, process, input, now);
    ReachedOn(sys, queued);
    var i, d := |sys.actors|, |sys.db.jobs|;
    sys' := AcceptedJobsCanFinish(queued, i, sum, directory, testPlan, Some(report), validationId, now);
    LeadsAcross(sys, queued, sys');
    ReachedOn(sys, sys');
    Reachable(sys');
    assert JobFine(sys'.db, d);
    FreshWhenReached(sys', d);
    forall k | 0 <= k < |sys'.actors| ensures !sys'.actors[k].Recoverer? {
      if k != i { assert !queued.actors[k].Recoverer?; }
    }
  }

  lemma NothingApprovedYet(sys: System, sys': System)
    requires Reached(sys) && sys'.db.approvals == sys.db.approvals
    ensures FindApproval(sys'.db.approvals, |sys.db.jobs|).None?
  {
    Reachable(sys);
    forall a | a in sys.db.approvals ensures a.dryRunJobId != |sys.db.jobs| {
      var p :| 0 <= p < |sys.db.approvals| && sys.db.approvals[p] == a;
      assert ApprovalFine(sys.db, p);
    }
  }

  lemma DeliveredIsApproved(sys: System, process: ProcessId, d: JobId, approver: string, alias: string, sum: string, directory: string,
                            testPlan: TestPlan, report: Report, validationId: string, now: int) returns (sys': System)
    requires !Recovering(sys.actors) && FindApproval(sys.db.approvals, d).None? && IsChecksum(sum)
    requires ReadyToApprove(sys.db, d, alias, sum, directory, testPlan, report, validationId, now)
    ensures Leads(sys, sys') && sys'.starts == sys.starts && sys'.db.attempts == sys.db.attempts
    ensures sys'.actors == sys.actors + [Worker(process, |sys.db.jobs|, ApprovedTask, Waiting)]
    ensures |sys'.db.jobs| == |sys.db.jobs| + 1 && sys'.db.jobs[d] == sys.db.jobs[d]
    ensures sys'.db.jobs[|sys.db.jobs|].status == Queued && sys'.db.jobs[|sys.db.jobs|].dryRunJobId == Some(d)
  {
    var q := ApprovalRequest(d, approver, sum, alias, true, true, true);
    ApprovalGrantedExactly(sys.db, q, sys.db.jobs[d], now);
    sys' := ApprovalIsQueued(sys, process, q, now);
  }

  lemma DeliveredMayDeploy(db: Db, db': Db, d: JobId, j: JobId, alias: string, sum: string, directory: string, testPlan: TestPlan,
                           report: Report, validationId: string, now: int)
    requires ReadyToApprove(db, d, alias, sum, directory, testPlan, report, validationId, now) && CheckOnlySuccess(Some(report))
    requires d < j < |db'.jobs| && db'.jobs[j].dryRunJobId == Some(d) && db'.jobs[d] == db.jobs[d] && db'.attempts == db.attempts
    ensures MayDeploy(db', j)
    ensures ChosenId(db'.jobs[d], CurrentRow(db', d)) == if testPlan.level == "NoTestRun" then None else Some(validationId)
  {
    IdentityComparisonIsPreorder(db.jobs[d].targetIdentity.value, db.jobs[d].targetIdentity.value, db.jobs[d].targetIdentity.value);
  }

  // The start command a deployment of this dry run comes to.
  function DeployCommand(j: JobId, a: AttemptId, testPlan: TestPlan, validationId: string): StartCommand
  {
    if testPlan.level == "NoTestRun" then StartCommand(j, a, Deploy, None)
    else StartCommand(j, a, QuickDeploy, Some(validationId))
  }

  lemma DeliveredIsDeployed(sys: System, process: ProcessId, d: JobId, approver: string, alias: string, sum: string, directory: string,
                            testPlan: TestPlan, report: Report, validationId: string, deploymentId: string, now: int)
    returns (sys': System)
    requires Reached(sys) && !Recovering(sys.actors) && FindApproval(sys.db.approvals, d).None? && IsChecksum(sum)
    requires ReadyToApprove(sys.db, d, alias, sum, directory, testPlan, report, validationId, now) && CheckOnlySuccess(Some(report))
    ensures var j := |sys.db.jobs|;
      && Leads(sys, sys') && j < |sys'.db.jobs| && sys'.db.jobs[j].status == Status.Succeeded
      && sys'.db.jobs[j].dryRunJobId == Some(d) && sys'.db.jobs[j].payloadChecksum == sum == sys'.db.jobs[d].payloadChecksum
      && sys'.starts == sys.starts + [DeployCommand(j, |sys.db.attempts|, testPlan, validationId)]
  {
    var approved := DeliveredIsApproved(sys, process, d, approver, alias, sum, directory, testPlan, report, validationId, now);
    ReachedOn(sys, approved);
    DeliveredMayDeploy(sys.db, approved.db, d, |sys.db.jobs|, alias, sum, directory, testPlan, report, validationId, now);
    sys' := ApprovedJobsCanSucceed(approved, |sys.actors|, deploymentId);
    LeadsAcross(sys, approved, sys');
    StillTheSameRows(approved, sys', d, |sys.db.jobs|, sum);
  }

  // From every reached state in which nobody recovers, any new valid request can be taken all
  // the way: validated, approved and deployed, with the payload that was validated, by two
  // start commands, the second of which reuses the validation unless no tests ran.
  lemma FromRequestToDeployment(sys: System, process: ProcessId, input: NewJob, approver: string, sum: string, directory: string,
                                testPlan: TestPlan, report: Report, validationId: string, deploymentId: string, now: int)
    returns (sys': System, second: AttemptId)
    requires Reached(sys) && !Recovering(sys.actors) && ValidRequest(input) && IsChecksum(sum) && CheckOnlySuccess(Some(report))
    requires forall j | 0 <= j < |sys.db.jobs| :: !SameRequest(sys.db.jobs[j], DryRun, input.createdBy, input.clientRequestId)
    ensures var d := |sys.db.jobs|; var j := d + 1;
      && Leads(sys, sys') && j < |sys'.db.jobs| && sys'.db.jobs[j].status == Status.Succeeded
      && sys'.db.jobs[j].dryRunJobId == Some(d) && sys'.db.jobs[j].payloadChecksum == sum == sys'.db.jobs[d].payloadChecksum
      && sys'.starts == sys.starts + [StartCommand(d, |sys.db.attempts|, Validate, None)]
           + [DeployCommand(j, second, testPlan, validationId)]
  {
    var d := |sys.db.jobs|;
    var delivered := DryRunIsDelivered(sys, process, input, sum, directory, testPlan, report, validationId, now);
    NothingApprovedYet(sys, delivered);
    second := |delivered.db.attempts|;
    sys' := DeliveredIsDeployed(delivered, process, d, approver, input.targetAlias, sum, directory, testPlan, report,
                                validationId, deploymentId, now);
    LeadsAcross(sys, delivered, sys');
  }

  lemma StillTheSameRows(approved: System, sys': System, d: JobId, j: JobId, sum: string)
    requires Reached(approved) && Leads(approved, sys') && d < |approved.db.jobs| && j < |approved.db.jobs|
    requires approved.db.jobs[j].dryRunJobId == Some(d) && approved.db.jobs[d].payloadChecksum == sum
    ensures j < |sys'.db.jobs| && d < |sys'.db.jobs| && sys'.db.jobs[j].dryRunJobId == Some(d)
    ensures sys'.db.jobs[j].payloadChecksum == sum == sys'.db.jobs[d].payloadChecksum
  {
    Reachable(approved);
    LaterIsKept(approved, sys');
    assert JobMoves(approved.db.jobs[j], sys'.db.jobs[j]);
    ApprovedJobAndDryRun(approved.db, j);
    ClosedRowStays(approved.db, sys'.db, d);
    ApprovedJobAndDryRun(sys'.db, j);
  }
}
