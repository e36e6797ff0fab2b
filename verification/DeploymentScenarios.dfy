// Runs that show where the guarantees of the protocol end.
module DeploymentScenarios {
  import opened Options
  import opened DeploymentModel
  import opened DeploymentSteps
  import opened DeploymentRuns
  import opened DeploymentProtocol

  predicate ValidRequest(input: NewJob)
  {
    IsClientRequestId(input.clientRequestId) && IsChecksum(input.requestHash) && IsChecksum(input.payloadChecksum)
  }

  function One(job: Job, attempts: seq<Attempt>): Db
  {
    Db([job], attempts, [])
  }

  function Scene(db: Db, actors: seq<Actor>, bodies: seq<JobId>, starts: seq<StartCommand>): System
  {
    System(db, actors, map[], map[], bodies, starts)
  }

  // ---- Playing an event sequence one event at a time ----

  lemma Extend(events: seq<TimedEvent>, sys: System, e: Event) returns (longer: seq<TimedEvent>)
    requires Play(BOOT, events) == sys
    ensures Play(BOOT, longer) == Do(sys, e, 0)
  {
    longer := events + [When(0, e)];
    assert longer[..|longer| - 1] == events;
  }

  lemma FirstJob(kind: Kind, input: NewJob)
    ensures CreateOnce(EMPTY, kind, input, true, 0) == Committed(One(FreshJob(kind, input, 0), []), Creation(0, true))
  {
    assert EMPTY.jobs + [FreshJob(kind, input, 0)] == [FreshJob(kind, input, 0)];
  }

  // ---- A dry run may be approval pending although its artifacts were never stored ----

  function DryRunScene(job: Job, stage: Stage, bodies: seq<JobId>): System
  {
    Scene(One(job, []), [Worker(0, 0, DryRunTask, stage)], bodies, [])
  }

  lemma DryRunEnters(input: NewJob)
    ensures Do(DryRunScene(FreshJob(DryRun, input, 0), Waiting, []), Act(0, Go(NoFault)), 0)
      == DryRunScene(FreshJob(DryRun, input, 0).(status := DryRunRunning, startedAt := Some(0)), InBody, [0])
  {
  }

  lemma EmptyPayloadReturns(job: Job, sum: string)
    ensures Do(DryRunScene(job, InBody, [0]), Act(0, SkipEmpty(sum)), 0) == DryRunScene(job, Returned(sum), [0])
  {
  }

  lemma ReturnedEnds(job: Job, sum: string)
    requires job.activeAttempt.None?
    ensures Do(DryRunScene(job, Returned(sum), [0]), Act(0, Go(NoFault)), 0) == DryRunScene(job, Ended(None, sum), [0])
  {
  }

  lemma EmptyRunEnds(input: NewJob, sum: string) returns (events: seq<TimedEvent>)
    requires ValidRequest(input)
    ensures Play(BOOT, events)
      == DryRunScene(FreshJob(DryRun, input, 0).(status := DryRunRunning, startedAt := Some(0)), Ended(None, sum), [0])
  {
    var job0 := FreshJob(DryRun, input, 0);
    var job := job0.(status := DryRunRunning, startedAt := Some(0));
    FirstJob(DryRun, input);
    events := Extend([], BOOT, RequestDryRun(0, input, NoFault));
    assert Play(BOOT, events) == DryRunScene(job0, Waiting, []);
    DryRunEnters(input);
    events := Extend(events, DryRunScene(job0, Waiting, []), Act(0, Go(NoFault)));
    EmptyPayloadReturns(job, sum);
    events := Extend(events, DryRunScene(job, InBody, [0]), Act(0, SkipEmpty(sum)));
    ReturnedEnds(job, sum);
    events := Extend(events, DryRunScene(job, Returned(sum), [0]), Act(0, Go(NoFault)));
  }

  // The write of the artifacts is lost; the run goes on with a warning.
  lemma LostStore(job: Job, sum: string, directory: string, testPlan: TestPlan, report: Option<Report>)
    ensures Do(DryRunScene(job, Ended(None, sum), [0]), Act(0, Store(directory, testPlan, report, WriteLost)), 0)
      == DryRunScene(job, Stored(None), [0])
  {
  }

  lemma FinishHandsOver(job: Job)
    ensures var c := Completion(ApprovalPending, CompletionDetails(None, None, 0));
      Do(DryRunScene(job, Stored(None), [0]), Act(0, Finish(None)), 0)
        == System(One(job, []), [Completer(0, 0, c, Trying)], map[], map[(0, 0) := c], [0], [])
  {
  }

  lemma CompletionApproves(job: Job, c: Completion)
    requires job.kind == DryRun && job.status == DryRunRunning && c == Completion(ApprovalPending, CompletionDetails(None, None, 0))
    ensures var db := Do(System(One(job, []), [Completer(0, 0, c, Trying)], map[], map[(0, 0) := c], [0], []), Act(0, Go(NoFault)), 0).db;
      && |db.jobs| == 1 && db.jobs[0].kind == DryRun && db.jobs[0].status == ApprovalPending && db.jobs[0].prepared == job.prepared
  {
  }

  // A failed write of the artifacts is only a warning, and completion does not ask for them,
  // so an unprepared dry run can wait for approval.
  lemma UnpreparedDryRunCanFinish(input: NewJob, sum: string, directory: string, testPlan: TestPlan, report: Option<Report>)
    returns (events: seq<TimedEvent>)
    requires ValidRequest(input)
    ensures var db := Play(BOOT, events).db;
      |db.jobs| == 1 && db.jobs[0].kind == DryRun && db.jobs[0].status == ApprovalPending && !db.jobs[0].prepared
  {
    var job := FreshJob(DryRun, input, 0).(status := DryRunRunning, startedAt := Some(0));
    var c := Completion(ApprovalPending, CompletionDetails(None, None, 0));
    events := EmptyRunEnds(input, sum);
    LostStore(job, sum, directory, testPlan, report);
    events := Extend(events, DryRunScene(job, Ended(None, sum), [0]), Act(0, Store(directory, testPlan, report, WriteLost)));
    FinishHandsOver(job);
    events := Extend(events, DryRunScene(job, Stored(None), [0]), Act(0, Finish(None)));
    CompletionApproves(job, c);
    events := Extend(events, System(One(job, []), [Completer(0, 0, c, Trying)], map[], map[(0, 0) := c], [0], []), Act(0, Go(NoFault)));
  }

  // ---- A terminal attempt can be reopened ----

  lemma Called(calls: seq<TimedCall>, db: Db, c: Call) returns (longer: seq<TimedCall>)
    requires Run(EMPTY, calls) == db
    ensures Run(EMPTY, longer) == Apply(db, c, 0)
  {
    longer := calls + [At(0, c)];
    assert longer[..|longer| - 1] == calls;
  }

  function Deployed(input: NewJob, status: Status, sum: string, directory: string): Job
  {
    FreshJob(Deployment, input, 0).(status := status, startedAt := Some(0), activeAttempt := Some(0),
      remoteStatus := RemoteUnknown, evidence := AttemptTracked, payloadChecksum := sum, runDirectory := Some(directory))
  }

  function Begun(input: NewJob, sum: string): Attempt
  {
    Attempt(0, Deploy, Submitting, None, None, input.targetIdentity, sum, 2, None, RemoteUnknown, 1)
  }

  function Final(remoteId: string): Progress
  {
    Progress(Deployment, remoteId, "Succeeded", true, Some(true), Some(false), 0)
  }

  lemma DeploymentBegins(input: NewJob, sum: string, directory: string) returns (calls: seq<TimedCall>)
    requires ValidRequest(input)
    ensures Run(EMPTY, calls) == One(Deployed(input, Deploying, sum, directory), [Begun(input, sum)])
  {
    var job := FreshJob(Deployment, input, 0);
    FirstJob(Deployment, input);
    calls := Called([], EMPTY, CallCreateDirect(input, true, true));
    calls := Called(calls, One(job, []), CallTransition(0, Deploying, NO_DETAILS));
    var running := job.(status := Deploying, startedAt := Some(0));
    assert Run(EMPTY, calls) == One(running, []);
    calls := Called(calls, One(running, []), CallBegin(0, ForDeploy, sum, 2, directory));
  }

  lemma DeploymentEnds(input: NewJob, sum: string, directory: string, remoteId: string)
    ensures var before := One(Deployed(input, Deploying, sum, directory), [Begun(input, sum)]);
      Apply(before, CallProgress(0, 0, Final(remoteId)), 0)
        == One(Deployed(input, Deploying, sum, directory).(remoteId := Some(remoteId), remoteStatus := RemoteSucceeded),
               [Begun(input, sum).(state := Terminal, deploymentId := Some(remoteId), remoteStatus := RemoteSucceeded, version := 2)])
  {
  }

  lemma CompletionIsDemoted(job: Job, attempt: Attempt)
    requires job.status == Deploying && job.updatedAt == 0 && job.completedAt.None?
    ensures Apply(One(job, [attempt]), CallTransition(0, ReconcileRequired, NO_DETAILS), 0)
      == One(job.(status := ReconcileRequired), [attempt])
  {
  }

  // A finished deployment whose completion could not be written awaits reconciliation; a
  // report that is not done then takes its attempt back from TERMINAL to SUBMITTED.
  lemma TerminalAttemptReopens(input: NewJob, sum: string, directory: string, remoteId: string, p: Progress) returns (db: Db)
    requires ValidRequest(input) && !p.done
    ensures ReachedDb(db) && |db.attempts| == 1 && db.attempts[0].state == Terminal
    ensures var db' := Apply(db, CallReport(0, Some(AttemptMark(0, 2)), p), 0);
      |db'.attempts| == 1 && db'.attempts[0].state == Submitted
  {
    var calls := DeploymentBegins(input, sum, directory);
    DeploymentEnds(input, sum, directory, remoteId);
    calls := Called(calls, One(Deployed(input, Deploying, sum, directory), [Begun(input, sum)]), CallProgress(0, 0, Final(remoteId)));
    var job := Deployed(input, Deploying, sum, directory).(remoteId := Some(remoteId), remoteStatus := RemoteSucceeded);
    var attempt := Begun(input, sum).(
      state := Terminal, deploymentId := Some(remoteId), remoteStatus := RemoteSucceeded, version := 2);
    CompletionIsDemoted(job, attempt);
    calls := Called(calls, One(job, [attempt]), CallTransition(0, ReconcileRequired, NO_DETAILS));
    db := One(job.(status := ReconcileRequired), [attempt]);
  }
}
