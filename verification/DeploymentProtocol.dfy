// The processes around the deployment database, one step per await: request handlers,
// queue workers with their Salesforce run, completion and its retries, reconciliation,
// administrator binding, recovery and expiry (src/deploy/dry-run-service.ts,
// src/deploy/deployment-service.ts, src/deploy/deployment-coordinator.ts,
// src/deploy/deployment-completion.ts). Any of them may be interrupted between steps,
// writes may be lost or their answers may be, and any process may die.
module DeploymentProtocol {
  import opened Options
  import opened DeploymentModel
  import opened DeploymentSteps
  import opened DeploymentRuns
  import opened QuickDeploy

  type ProcessId = nat

  // A write reaches the database and its answer the caller, or one of the two is lost.
  datatype Fault = NoFault | WriteLost | AnswerLost

  datatype Task = DryRunTask | DirectTask | ApprovedTask

  datatype Stage =
    | Waiting                                     // queued in this process
    | InBody                                      // the job was moved to its running status
    | SawDeploy(current: Job)                     // an approved task reads its evidence
    | SawDryRun(current: Job, dryRun: Job)
    | SawValidation(current: Job, dryRun: Job, validation: Option<Attempt>, sum: string)
    | Planned(sum: string, directory: string, quick: Option<string>)
    | Intended(attempt: AttemptId, sum: string)   // the submission intent is stored
    | Started(attempt: AttemptId, sum: string)    // the start command has been issued
    | Returned(sum: string)                       // the run reported success
    | Ended(mark: Option<AttemptMark>, sum: string)
    | Stored(mark: Option<AttemptMark>)           // storing the artifacts was tried
    | Failing(unknown: bool, details: Details)

  // What complete() was called with.
  datatype Completion = Completion(target: Status, details: Details)

  datatype CompleterStep = Trying | Rechecking | Suspecting(seen: Status) | Demoting | Retrying | RetryChecking | RetryWriting

  datatype ReconcilerStep = SawJob | SawAttempt(mark: Option<AttemptMark>, validation: bool) | Concluding(next: Status)

  datatype Actor =
    | Gone
    | Approver(process: ProcessId, request: ApprovalRequest, read: Job)
    | Worker(process: ProcessId, job: JobId, task: Task, stage: Stage)
    | Completer(process: ProcessId, job: JobId, completion: Completion, step: CompleterStep)
    | Reconciler(process: ProcessId, job: JobId, seen: Job, reconcileStep: ReconcilerStep)
    | Binder(process: ProcessId, job: JobId, attempt: AttemptId, operation: Operation, remoteId: string, bound: bool)
    | Recoverer(process: ProcessId, list: seq<(JobId, Status)>)
    | Expirer(process: ProcessId, expired: seq<JobId>)
    | Rejecter(process: ProcessId, job: JobId)

  datatype StartCommand = StartCommand(job: JobId, attempt: AttemptId, operation: Operation, validationId: Option<string>)

  datatype System = System(
    db: Db,
    actors: seq<Actor>,
    pending: map<(ProcessId, JobId), Completion>,   // DeploymentCompletion.pending of each process
    owed: map<(ProcessId, JobId), Completion>,      // history: results handed to complete()
    bodies: seq<JobId>,                             // history: task bodies entered
    starts: seq<StartCommand>)                      // history: start commands issued

  const BOOT: System := System(EMPTY, [], map[], map[], [], [])

  // What the environment decides when an actor takes its next step.
  datatype Choice =
    | Go(fault: Fault)
    | Throw(unknown: bool, knownId: Option<string>, deployFailed: bool)
    | Prepare(sum: string, directory: string, fault: Fault)
    | SkipEmpty(sum: string)
    | Measure(measured: string)
    | Choose(quickEnabled: bool, fault: Fault)
    | Answer(remoteId: string, fault: Fault)
    | Observe(progress: Progress, fault: Fault)
    | ReturnSuccess
    | Store(directory: string, testPlan: TestPlan, report: Option<Report>, fault: Fault)
    | Finish(finalId: Option<string>)

  datatype Event =
    | RequestDryRun(process: ProcessId, input: NewJob, fault: Fault)
    | RequestDirect(process: ProcessId, input: NewJob, confirmed: bool, mayDeploy: bool, fault: Fault)
    | RequestApproval(process: ProcessId, request: ApprovalRequest)
    | RequestReconcile(process: ProcessId, job: JobId)
    | RequestBind(process: ProcessId, job: JobId, operation: Operation, remoteId: string)
    | BeginRetry(process: ProcessId, job: JobId)
    | BeginRecovery(process: ProcessId)
    | BeginExpiry(process: ProcessId, expired: seq<JobId>)
    | BeginRejection(process: ProcessId, job: JobId)
    | Act(actor: nat, choice: Choice)
    | Crash(process: ProcessId)

  // ---- Effects of one step of one actor ----

  datatype Effect = Effect(
    call: Option<Call>, fault: Fault, next: Actor,
    pending: map<(ProcessId, JobId), Completion>, owed: map<(ProcessId, JobId), Completion>,
    bodies: seq<JobId>, starts: seq<StartCommand>)

  function Quiet(sys: System, next: Actor): Effect
  {
    Effect(None, NoFault, next, sys.pending, sys.owed, sys.bodies, sys.starts)
  }

  function Write(sys: System, call: Call, fault: Fault, next: Actor): Effect
  {
    Effect(Some(call), fault, next, sys.pending, sys.owed, sys.bodies, sys.starts)
  }

  predicate Commits(db: Db, c: Call, now: int)
  {
    match c
    case CallCreateDryRun(input) => CreateDryRun(db, input, now).Committed?
    case CallCreateDirect(input, confirmed, mayDeploy) => CreateDirectDeployment(db, input, confirmed, mayDeploy, now).Committed?
    case CallTransition(id, next, details) => Transition(db, id, next, details, now).Committed?
    case CallPlan(id, mode, v) => RecordExecutionPlan(db, id, mode, v, now).Committed?
    case CallDryRunArtifacts(id, a) => RecordDryRunArtifacts(db, id, a, now).Committed?
    case CallDirectArtifacts(id, a) => RecordDirectArtifacts(db, id, a, now).Committed?
    case CallApprove(request, read) => ApproveAndQueue(db, request, read, now).Committed?
    case CallBegin(id, purpose, sum, digest, dir) => MayBegin(db, id, IntentOf(purpose, sum, digest, dir).operation)
    case CallSubmitted(id, a, r) => RecordSubmitted(db, id, a, r, now).Committed?
    case CallProgress(id, a, p) => RecordProgress(db, id, a, p).Committed?
    case CallUntracked(id, r, s) => RecordUntracked(db, id, r, s, now).Committed?
    case CallBind(id, a, op, r) => Bind(db, id, a, op, r, now).Committed?
    case CallReport(id, mark, p) => RecordReport(db, id, mark, p, now).Committed?
  }

  // The caller sees the write succeed.
  predicate Confirmed(db: Db, c: Call, fault: Fault, now: int)
  {
    fault == NoFault && Commits(db, c, now)
  }

  function Perform(db: Db, call: Option<Call>, fault: Fault, now: int): Db
  {
    if call.None? || fault == WriteLost then db else Apply(db, call.value, now)
  }

  // deployment-job-repository.attempts.current
  function CurrentMark(db: Db, id: JobId): Option<AttemptMark>
  {
    if id < |db.jobs| && db.jobs[id].activeAttempt.Some? && db.jobs[id].activeAttempt.value < |db.attempts|
    then Some(AttemptMark(db.jobs[id].activeAttempt.value, db.attempts[db.jobs[id].activeAttempt.value].version))
    else None
  }

  function CurrentRow(db: Db, id: JobId): Option<Attempt>
  {
    var mark := CurrentMark(db, id);
    if mark.Some? && mark.value.id < |db.attempts| then Some(db.attempts[mark.value.id]) else None
  }

  // ---- One runtime at a time ----

  // Recovery runs before the queue exists, or after it was closed and became idle, and the
  // owner lock keeps every other runtime away meanwhile. So it begins only when no worker
  // lives, and until it is over nothing is enqueued.
  predicate Recovering(actors: seq<Actor>) { exists i :: 0 <= i < |actors| && actors[i].Recoverer? }

  predicate Working(actors: seq<Actor>) { exists i :: 0 <= i < |actors| && actors[i].Worker? }

  // ---- Queue workers ----

  function RunningStatus(task: Task): Status
  {
    if task == DryRunTask then DryRunRunning else Deploying
  }

  function TargetStatus(task: Task): Status
  {
    if task == DryRunTask then ApprovalPending else Status.Succeeded
  }

  function AtStage(w: Actor, stage: Stage): Actor
    requires w.Worker?
  {
    w.(stage := stage)
  }

  function FailWith(w: Actor, unknown: bool): Actor
    requires w.Worker?
  {
    AtStage(w, Failing(unknown, FailureDetails(unknown, None, false)))
  }

  // recordFailure: an unknown outcome keeps the remote id, a reported failure is marked.
  function FailureDetails(unknown: bool, id: Option<string>, deployFailed: bool): Details
  {
    if unknown then NO_DETAILS.(remoteId := id, remoteStatus := Some(RemoteUnknown))
    else if deployFailed then NO_DETAILS.(remoteStatus := Some(RemoteFailed))
    else NO_DETAILS
  }

  // Stores the submission intent; the start command follows only if that is confirmed.
  function BeginSubmission(sys: System, w: Actor, purpose: Purpose, sum: string, directory: string, fault: Fault, now: int): Effect
    requires w.Worker?
  {
    var call := CallBegin(w.job, purpose, sum, 2, directory);
    Write(sys, call, fault,
          if Confirmed(sys.db, call, fault, now) then AtStage(w, Intended(|sys.db.attempts|, sum)) else FailWith(w, false))
  }

  function StepWaiting(sys: System, w: Actor, c: Choice, now: int): Effect
    requires w.Worker?
  {
    match c
    case Go(fault) =>
      var call := CallTransition(w.job, RunningStatus(w.task), NO_DETAILS);
      if Confirmed(sys.db, call, fault, now)
      then Write(sys, call, fault, AtStage(w, InBody)).(bodies := sys.bodies + [w.job])
      else Write(sys, call, fault, Gone)
    case _ => Quiet(sys, w)
  }

  function StepInBody(sys: System, w: Actor, c: Choice, now: int): Effect
    requires w.Worker?
  {
    match c
    case Throw(unknown, id, deployFailed) => Quiet(sys, AtStage(w, Failing(unknown, FailureDetails(unknown, id, deployFailed))))
    case Prepare(sum, directory, fault) =>
      if w.task == ApprovedTask then Quiet(sys, w)
      else BeginSubmission(sys, w, if w.task == DryRunTask then ForValidation else ForDeploy, sum, directory, fault, now)
    case SkipEmpty(sum) => if w.task == ApprovedTask then Quiet(sys, w) else Quiet(sys, AtStage(w, Returned(sum)))
    case Go(_) =>
      if w.task != ApprovedTask then Quiet(sys, w)
      else if w.job >= |sys.db.jobs| || sys.db.jobs[w.job].dryRunJobId.None? then Quiet(sys, FailWith(w, false))
      else Quiet(sys, AtStage(w, SawDeploy(sys.db.jobs[w.job])))
    case _ => Quiet(sys, w)
  }

  function StepSawDeploy(sys: System, w: Actor, c: Choice): Effect
    requires w.Worker? && w.stage.SawDeploy?
  {
    match c
    case Throw(unknown, id, deployFailed) => Quiet(sys, AtStage(w, Failing(unknown, FailureDetails(unknown, id, deployFailed))))
    case Go(_) =>
      var d := w.stage.current.dryRunJobId;
      if d.None? || d.value >= |sys.db.jobs| then Quiet(sys, FailWith(w, false))
      else Quiet(sys, AtStage(w, SawDryRun(w.stage.current, sys.db.jobs[d.value])))
    case _ => Quiet(sys, w)
  }

  // The approval must still be fresh and the prepared package must still have the approved
  // checksum, before the tracked validation is read.
  function StepSawDryRun(sys: System, w: Actor, c: Choice, now: int): Effect
    requires w.Worker? && w.stage.SawDryRun?
  {
    match c
    case Throw(unknown, id, deployFailed) => Quiet(sys, AtStage(w, Failing(unknown, FailureDetails(unknown, id, deployFailed))))
    case Measure(sum) =>
      var current, dryRun := w.stage.current, w.stage.dryRun;
      if dryRun.kind != DryRun || dryRun.status != ApprovalPending || !FreshEnough(dryRun.completedAt, now)
        || !dryRun.prepared || dryRun.runDirectory.None? || sum != current.payloadChecksum
        || dryRun.testPlan.None? || current.dryRunJobId.None?
      then Quiet(sys, FailWith(w, false))
      else Quiet(sys, AtStage(w, SawValidation(current, dryRun, CurrentRow(sys.db, current.dryRunJobId.value), sum)))
    case _ => Quiet(sys, w)
  }

  function StepSawValidation(sys: System, w: Actor, c: Choice, now: int): Effect
    requires w.Worker? && w.stage.SawValidation?
  {
    match c
    case Throw(unknown, id, deployFailed) => Quiet(sys, AtStage(w, Failing(unknown, FailureDetails(unknown, id, deployFailed))))
    case Choose(quickEnabled, fault) =>
      var verdict := Evaluate(w.stage.dryRun, w.stage.current, w.stage.validation);
      var disabled := verdict.mode == UseQuickDeploy && !quickEnabled;
      var call := CallPlan(w.job, if disabled then RevalidationRequired else verdict.mode, verdict.validationId);
      Write(sys, call, fault,
            if !Confirmed(sys.db, call, fault, now) || disabled then FailWith(w, false)
            else if verdict.mode == ModeReconcileRequired then FailWith(w, true)
            else if verdict.mode == RevalidationRequired || w.stage.dryRun.runDirectory.None? then FailWith(w, false)
            else AtStage(w, Planned(w.stage.sum, w.stage.dryRun.runDirectory.value,
                                    if verdict.mode == UseQuickDeploy then verdict.validationId else None)))
    case _ => Quiet(sys, w)
  }

  function StepPlanned(sys: System, w: Actor, c: Choice, now: int): Effect
    requires w.Worker? && w.stage.Planned?
  {
    match c
    case Throw(unknown, id, deployFailed) => Quiet(sys, AtStage(w, Failing(unknown, FailureDetails(unknown, id, deployFailed))))
    case Go(fault) =>
      BeginSubmission(sys, w, if w.stage.quick.Some? then ForQuickDeploy(w.stage.quick.value) else ForDeploy,
                      w.stage.sum, w.stage.directory, fault, now)
    case _ => Quiet(sys, w)
  }

  function StepIntended(sys: System, w: Actor, c: Choice): Effect
    requires w.Worker? && w.stage.Intended?
  {
    match c
    case Throw(unknown, id, deployFailed) => Quiet(sys, AtStage(w, Failing(unknown, FailureDetails(unknown, id, deployFailed))))
    case Go(_) =>
      var a := w.stage.attempt;
      if a >= |sys.db.attempts| then Quiet(sys, w)
      else Quiet(sys, AtStage(w, Started(a, w.stage.sum))).(
        starts := sys.starts + [StartCommand(w.job, a, sys.db.attempts[a].operation, sys.db.attempts[a].validationId)])
    case _ => Quiet(sys, w)
  }

  // The Salesforce run: its notifications may fail without interrupting it.
  function StepStarted(sys: System, w: Actor, c: Choice): Effect
    requires w.Worker? && w.stage.Started?
  {
    match c
    case Throw(unknown, id, deployFailed) => Quiet(sys, AtStage(w, Failing(unknown, FailureDetails(unknown, id, deployFailed))))
    case Answer(remoteId, fault) => Write(sys, CallSubmitted(w.job, w.stage.attempt, remoteId), fault, w)
    case Observe(progress, fault) => Write(sys, CallProgress(w.job, w.stage.attempt, progress), fault, w)
    case ReturnSuccess => Quiet(sys, AtStage(w, Returned(w.stage.sum)))
    case _ => Quiet(sys, w)
  }

  function StepReturned(sys: System, w: Actor, c: Choice): Effect
    requires w.Worker? && w.stage.Returned?
  {
    match c
    case Throw(unknown, id, deployFailed) => Quiet(sys, AtStage(w, Failing(unknown, FailureDetails(unknown, id, deployFailed))))
    case Go(_) => Quiet(sys, AtStage(w, Ended(CurrentMark(sys.db, w.job), w.stage.sum)))
    case _ => Quiet(sys, w)
  }

  function CompletionDetails(remoteId: Option<string>, mark: Option<AttemptMark>, now: int): Details
  {
    Details(Some(now), remoteId, Some(if remoteId.None? then RemoteNotSubmitted else RemoteSucceeded),
            if mark.Some? then Some(mark.value.id) else None, if mark.Some? then Some(mark.value.version) else None)
  }

  function StepEnded(sys: System, w: Actor, c: Choice, now: int): Effect
    requires w.Worker? && w.stage.Ended?
  {
    match c
    case Store(directory, testPlan, report, fault) =>
      var artifacts := Artifacts(w.stage.sum, directory, testPlan, report);
      if w.task == DryRunTask then Write(sys, CallDryRunArtifacts(w.job, artifacts), fault, AtStage(w, Stored(w.stage.mark)))
      else if w.task == DirectTask then Write(sys, CallDirectArtifacts(w.job, artifacts), fault, AtStage(w, Stored(w.stage.mark)))
      else Quiet(sys, w)
    case Finish(remoteId) => if w.task == ApprovedTask then HandOver(sys, w, remoteId, now) else Quiet(sys, w)
    case _ => Quiet(sys, w)
  }

  // A failed write of the artifacts is only a warning.
  function StepStored(sys: System, w: Actor, c: Choice, now: int): Effect
    requires w.Worker? && w.stage.Stored?
  {
    match c
    case Finish(remoteId) => HandOver(sys, w, remoteId, now)
    case _ => Quiet(sys, w)
  }

  function HandOver(sys: System, w: Actor, remoteId: Option<string>, now: int): Effect
    requires w.Worker? && (w.stage.Ended? || w.stage.Stored?)
  {
    var completion := Completion(TargetStatus(w.task), CompletionDetails(remoteId, w.stage.mark, now));
    Quiet(sys, Completer(w.process, w.job, completion, Trying)).(
      owed := sys.owed[(w.process, w.job) := completion])
  }

  function StepFailing(sys: System, w: Actor, c: Choice): Effect
    requires w.Worker? && w.stage.Failing?
  {
    match c
    case Go(fault) =>
      Write(sys, CallTransition(w.job, if w.stage.unknown then ReconcileRequired else Status.Failed, w.stage.details),
            fault, Gone)
    case _ => Quiet(sys, w)
  }

  function StepWorker(sys: System, w: Actor, c: Choice, now: int): Effect
    requires w.Worker?
  {
    match w.stage
    case Waiting => StepWaiting(sys, w, c, now)
    case InBody => StepInBody(sys, w, c, now)
    case SawDeploy(_) => StepSawDeploy(sys, w, c)
    case SawDryRun(_, _) => StepSawDryRun(sys, w, c, now)
    case SawValidation(_, _, _, _) => StepSawValidation(sys, w, c, now)
    case Planned(_, _, _) => StepPlanned(sys, w, c, now)
    case Intended(_, _) => StepIntended(sys, w, c)
    case Started(_, _) => StepStarted(sys, w, c)
    case Returned(_) => StepReturned(sys, w, c)
    case Ended(_, _) => StepEnded(sys, w, c, now)
    case Stored(_) => StepStored(sys, w, c, now)
    case Failing(_, _) => StepFailing(sys, w, c)
  }

  // ---- Completion and its retries ----

  predicate StillCurrent(db: Db, id: JobId, details: Details)
  {
    details.attemptId.None? || details.attemptVersion.None?
    || CurrentMark(db, id) == Some(AttemptMark(details.attemptId.value, details.attemptVersion.value))
  }

  function Forget(sys: System, m: Actor): Effect
    requires m.Completer?
  {
    Quiet(sys, Gone).(pending := sys.pending - {(m.process, m.job)})
  }

  function StepCompleter(sys: System, m: Actor, c: Choice, now: int): Effect
    requires m.Completer?
  {
    var key := (m.process, m.job);
    if m.job >= |sys.db.jobs| then Quiet(sys, m)
    else
      var status := sys.db.jobs[m.job].status;
      match c
      case Throw(_, _, _) =>                     // a read failed; what is pending stays pending
        if m.step == Trying then Quiet(sys, m) else Quiet(sys, Gone)
      case Go(fault) =>
        (match m.step
         case Trying =>
           var call := CallTransition(m.job, m.completion.target, m.completion.details);
           if Confirmed(sys.db, call, fault, now) then Write(sys, call, fault, Gone)
           else Write(sys, call, fault, m.(step := Rechecking)).(pending := sys.pending[key := m.completion])
         case Rechecking => if status == m.completion.target then Forget(sys, m) else Quiet(sys, m.(step := Suspecting(status)))
         case Suspecting(seen) =>
           if !StillCurrent(sys.db, m.job, m.completion.details) then Forget(sys, m)
           else if seen == ReconcileRequired then Quiet(sys, Gone)
           else Quiet(sys, m.(step := Demoting))
         case Demoting => Write(sys, CallTransition(m.job, ReconcileRequired, m.completion.details), fault, Gone)
         case Retrying => if Finished(status) then Forget(sys, m) else Quiet(sys, m.(step := RetryChecking))
         case RetryChecking =>
           if !StillCurrent(sys.db, m.job, m.completion.details) then Forget(sys, m)
           else Quiet(sys, m.(step := RetryWriting))
         case RetryWriting =>
           var call := CallTransition(m.job, m.completion.target, m.completion.details);
           if Confirmed(sys.db, call, fault, now)
           then Write(sys, call, fault, Gone).(pending := sys.pending - {key})
           else Write(sys, call, fault, Gone))
      case _ => Quiet(sys, m)
  }

  // ---- Reconciliation ----

  // The remote id the recorded evidence names for this job, if any.
  function RecordedRemoteId(seen: Job, attempt: Option<Attempt>): Option<string>
  {
    if attempt.None? then seen.remoteId else OwnId(attempt.value)
  }

  // The report must answer for the right kind of run.
  predicate ReportFits(seen: Job, mark: Option<AttemptMark>, validation: bool, p: Progress)
  {
    var checkOnly := validation || (mark.None? && seen.kind == DryRun);
    && (p.checkOnly.Some? ==> p.checkOnly.value == checkOnly)
    && (mark.None? ==> p.checkOnly.Some?)
  }

  function StepReconciler(sys: System, r: Actor, c: Choice, now: int): Effect
    requires r.Reconciler?
  {
    match c
    case Throw(_, _, _) => Quiet(sys, Gone)
    case Go(fault) =>
      (match r.reconcileStep
       case SawJob =>
         var attempt := CurrentRow(sys.db, r.job);
         if r.seen.status != ReconcileRequired || RecordedRemoteId(r.seen, attempt).None? then Quiet(sys, Gone)
         else Quiet(sys, r.(reconcileStep := SawAttempt(CurrentMark(sys.db, r.job),
                                                        attempt.Some? && attempt.value.operation == Validate)))
       case SawAttempt(_, _) => Quiet(sys, r)
       case Concluding(next) =>
         Write(sys, CallTransition(r.job, next, NO_DETAILS.(
           remoteStatus := Some(if next == Status.Failed then RemoteFailed else RemoteSucceeded))), fault, Gone))
    case Observe(p, fault) =>
      (match r.reconcileStep
       case SawAttempt(mark, validation) =>
         if !ReportFits(r.seen, mark, validation, p) then Quiet(sys, Gone)
         else
           var call := CallReport(r.job, mark, p);
           Write(sys, call, fault,
                 if !Confirmed(sys.db, call, fault, now) || !p.done then Gone
                 else if !ReportsSuccess(p) then r.(reconcileStep := Concluding(Status.Failed))
                 else if r.seen.kind == DryRun && !r.seen.prepared then Gone
                 else r.(reconcileStep := Concluding(
                   if r.seen.kind == DryRun then ApprovalPending
                   else if validation then ValidatedPendingExecution else Status.Succeeded)))
       case _ => Quiet(sys, r))
    case _ => Quiet(sys, r)
  }

  function StepBinder(sys: System, b: Actor, c: Choice, now: int): Effect
    requires b.Binder?
  {
    match c
    case Throw(_, _, _) => Quiet(sys, Gone)
    case Go(fault) =>
      if b.bound then
        if b.job >= |sys.db.jobs| then Quiet(sys, Gone) else Quiet(sys, Reconciler(b.process, b.job, sys.db.jobs[b.job], SawJob))
      else
        var call := CallBind(b.job, b.attempt, b.operation, b.remoteId);
        Write(sys, call, fault, if Confirmed(sys.db, call, fault, now) then b.(bound := true) else Gone)
    case _ => Quiet(sys, b)
  }

  // ---- Recovery and expiry ----

  function StepRecoverer(sys: System, r: Actor, c: Choice, now: int): Effect
    requires r.Recoverer?
  {
    match c
    case Go(fault) =>
      if r.list == [] then Quiet(sys, Gone)
      else
        var call := CallTransition(r.list[0].0, if r.list[0].1 == Queued then Status.Failed else ReconcileRequired, NO_DETAILS);
        Write(sys, call, fault, if Confirmed(sys.db, call, fault, now) then r.(list := r.list[1..]) else Gone)
    case _ => Quiet(sys, r)
  }

  function StepExpirer(sys: System, x: Actor, c: Choice, now: int): Effect
    requires x.Expirer?
  {
    match c
    case Go(fault) =>
      if x.expired == [] then Quiet(sys, Gone)
      else
        var call := CallTransition(x.expired[0], Status.Failed, NO_DETAILS);
        Write(sys, call, fault, if Confirmed(sys.db, call, fault, now) then x.(expired := x.expired[1..]) else Gone)
    case _ => Quiet(sys, x)
  }

  function StepApprover(sys: System, p: Actor, c: Choice, now: int): Effect
    requires p.Approver?
  {
    match c
    case Go(fault) =>
      var call := CallApprove(p.request, p.read);
      var o := ApproveAndQueue(sys.db, p.request, p.read, now);
      Write(sys, call, fault,
            if Confirmed(sys.db, call, fault, now) && !Recovering(sys.actors)
            then Worker(p.process, o.value, ApprovedTask, Waiting) else Gone)
    case _ => Quiet(sys, p)
  }

  // A job that could not be enqueued, or whose manifest could not be written, is failed
  // after a look at its status.
  function StepRejecter(sys: System, x: Actor, c: Choice): Effect
    requires x.Rejecter?
  {
    match c
    case Go(fault) => Write(sys, CallTransition(x.job, Status.Failed, NO_DETAILS), fault, Gone)
    case _ => Quiet(sys, x)
  }

  function EffectOf(sys: System, actor: Actor, c: Choice, now: int): Effect
  {
    match actor
    case Gone => Quiet(sys, Gone)
    case Approver(_, _, _) => StepApprover(sys, actor, c, now)
    case Worker(_, _, _, _) => StepWorker(sys, actor, c, now)
    case Completer(_, _, _, _) => StepCompleter(sys, actor, c, now)
    case Reconciler(_, _, _, _) => StepReconciler(sys, actor, c, now)
    case Binder(_, _, _, _, _, _) => StepBinder(sys, actor, c, now)
    case Recoverer(_, _) => StepRecoverer(sys, actor, c, now)
    case Expirer(_, _) => StepExpirer(sys, actor, c, now)
    case Rejecter(_, _) => StepRejecter(sys, actor, c)
  }

  // ---- Events ----

  function Join(sys: System, db: Db, actor: Option<Actor>): System
  {
    sys.(db := db, actors := if actor.Some? then sys.actors + [actor.value] else sys.actors)
  }

  function Created(sys: System, process: ProcessId, call: Call, o: Outcome<Creation>, task: Task, fault: Fault, now: int): System
  {
    Join(sys, Perform(sys.db, Some(call), fault, now),
         if fault == NoFault && o.Committed? && o.value.created && !Recovering(sys.actors)
         then Some(Worker(process, o.value.id, task, Waiting)) else None)
  }

  function Interrupted(jobs: seq<Job>, from: nat): (list: seq<(JobId, Status)>)
    decreases |jobs|
  {
    if jobs == [] then []
    else
      (if jobs[0].status == Queued || Running(jobs[0].status) then [(from, jobs[0].status)] else [])
      + Interrupted(jobs[1..], from + 1)
  }

  predicate OwnedBy(actor: Actor, process: ProcessId)
  {
    actor.Gone? || actor.process == process
  }

  function Dead(actors: seq<Actor>, process: ProcessId): (r: seq<Actor>)
    ensures |r| == |actors|
    ensures forall i | 0 <= i < |actors| :: r[i] == if OwnedBy(actors[i], process) then Gone else actors[i]
  {
    seq(|actors|, i requires 0 <= i < |actors| => if OwnedBy(actors[i], process) then Gone else actors[i])
  }

  function Survivors(m: map<(ProcessId, JobId), Completion>, process: ProcessId): map<(ProcessId, JobId), Completion>
  {
    map k | k in m && k.0 != process :: m[k]
  }

  function Do(sys: System, e: Event, now: int): System
  {
    match e
    case RequestDryRun(process, input, fault) =>
      Created(sys, process, CallCreateDryRun(input), CreateDryRun(sys.db, input, now), DryRunTask, fault, now)
    case RequestDirect(process, input, confirmed, mayDeploy, fault) =>
      Created(sys, process, CallCreateDirect(input, confirmed, mayDeploy),
              CreateDirectDeployment(sys.db, input, confirmed, mayDeploy, now), DirectTask, fault, now)
    case RequestApproval(process, request) =>
      if request.dryRunJobId >= |sys.db.jobs| then sys
      else Join(sys, sys.db, Some(Approver(process, request, sys.db.jobs[request.dryRunJobId])))
    case RequestReconcile(process, job) =>
      if job >= |sys.db.jobs| then sys else Join(sys, sys.db, Some(Reconciler(process, job, sys.db.jobs[job], SawJob)))
    case RequestBind(process, job, operation, remoteId) =>
      var mark := CurrentMark(sys.db, job);
      if mark.None? then sys else Join(sys, sys.db, Some(Binder(process, job, mark.value.id, operation, remoteId, false)))
    case BeginRetry(process, job) =>
      if (process, job) !in sys.pending then sys
      else Join(sys, sys.db, Some(Completer(process, job, sys.pending[(process, job)], Retrying)))
    case BeginRecovery(process) => if Working(sys.actors) then sys else Join(sys, sys.db, Some(Recoverer(process, Interrupted(sys.db.jobs, 0))))
    case BeginExpiry(process, expired) =>
      if exists j :: j in expired && !(j < |sys.db.jobs| && sys.db.jobs[j].status == ValidatedPendingExecution) then sys
      else Join(sys, sys.db, Some(Expirer(process, expired)))
    case BeginRejection(process, job) =>
      if job >= |sys.db.jobs| || sys.db.jobs[job].status != Queued then sys else Join(sys, sys.db, Some(Rejecter(process, job)))
    case Act(i, c) =>
      if i >= |sys.actors| then sys
      else
        var f := EffectOf(sys, sys.actors[i], c, now);
        System(Perform(sys.db, f.call, f.fault, now), sys.actors[i := f.next], f.pending, f.owed, f.bodies, f.starts)
    case Crash(process) =>
      sys.(actors := Dead(sys.actors, process), pending := Survivors(sys.pending, process), owed := Survivors(sys.owed, process))
  }

  datatype TimedEvent = When(now: int, event: Event)

  function Play(sys: System, events: seq<TimedEvent>): System
  {
    if events == [] then sys
    else
      var last := |events| - 1;
      Do(Play(sys, events[..last]), events[last].event, events[last].now)
  }

  // Some run of the processes from an empty database ends here ...
  ghost predicate Reached(sys: System) { exists events :: Play(BOOT, events) == sys }

  // ... and some run leads from one state to the other.
  ghost predicate Leads(sys: System, sys': System) { exists events :: Play(sys, events) == sys' }
}
