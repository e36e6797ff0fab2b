// The invariant of the whole system of processes, kept by every event of every run.
module DeploymentSafety {
  import opened Options
  import opened DeploymentModel
  import opened DeploymentSteps
  import opened DeploymentRuns
  import opened QuickDeploy
  import opened DeploymentDiscipline
  import opened DeploymentProtocol

  // ---- What each actor may rely on ----

  predicate TaskFits(job: Job, task: Task)
  {
    match task
    case DryRunTask => job.kind == DryRun
    case DirectTask => job.kind == Deployment && job.dryRunJobId.None?
    case ApprovedTask => job.kind == Deployment && job.dryRunJobId.Some?
  }

  predicate InBodyOn(actor: Actor, j: JobId)
  {
    actor.Worker? && actor.job == j && !actor.stage.Waiting?
  }

  // An attempt that was the job's active one when its version was read.
  ghost predicate MarkSeen(db: Db, j: JobId, mark: AttemptMark)
  {
    && j < |db.jobs| && mark.id < |db.attempts| && db.attempts[mark.id].jobId == j
    && mark.version <= db.attempts[mark.id].version
    && db.jobs[j].activeAttempt.Some? && mark.id <= db.jobs[j].activeAttempt.value
  }

  ghost predicate ReadingEvidence(db: Db, w: Actor, current: Job)
    requires w.Worker? && w.job < |db.jobs|
  {
    && w.task == ApprovedTask && db.jobs[w.job].activeAttempt.None?
    && current.dryRunJobId == db.jobs[w.job].dryRunJobId
    && current.payloadChecksum == db.jobs[w.job].payloadChecksum
  }

  ghost predicate ReadDryRunRow(db: Db, j: JobId, dryRun: Job)
    requires j < |db.jobs|
  {
    db.jobs[j].dryRunJobId.Some? && db.jobs[j].dryRunJobId.value < |db.jobs| && db.jobs[db.jobs[j].dryRunJobId.value] == dryRun
  }

  ghost predicate ActivePayload(db: Db, j: JobId, sum: string)
    requires j < |db.jobs|
  {
    var active := db.jobs[j].activeAttempt;
    active.Some? && active.value < |db.attempts| ==> db.attempts[active.value].payloadChecksum == sum
  }

  ghost predicate OwnAttempt(db: Db, j: JobId, a: AttemptId, sum: string)
    requires j < |db.jobs|
  {
    && a < |db.attempts| && db.attempts[a].jobId == j && db.jobs[j].activeAttempt == Some(a)
    && db.attempts[a].payloadChecksum == sum
  }

  ghost predicate StageFine(db: Db, w: Actor)
    requires w.Worker? && w.job < |db.jobs|
  {
    match w.stage
    case Waiting => true
    case InBody => db.jobs[w.job].activeAttempt.None?
    case SawDeploy(current) => ReadingEvidence(db, w, current)
    case SawDryRun(current, dryRun) => ReadingEvidence(db, w, current) && ReadDryRunRow(db, w.job, dryRun)
    case SawValidation(current, dryRun, validation, sum) =>
      && ReadingEvidence(db, w, current) && ReadDryRunRow(db, w.job, dryRun)
      && validation == CurrentRow(db, db.jobs[w.job].dryRunJobId.value)
      && sum == db.jobs[w.job].payloadChecksum
    case Planned(sum, _, quick) =>
      && w.task == ApprovedTask && db.jobs[w.job].activeAttempt.None? && sum == db.jobs[w.job].payloadChecksum
      && (quick.Some? ==> QuickBacked(db, w.job, quick.value))
    case Intended(a, sum) => OwnAttempt(db, w.job, a, sum)
    case Started(a, sum) => OwnAttempt(db, w.job, a, sum)
    case Returned(sum) => ActivePayload(db, w.job, sum)
    case Ended(mark, sum) => ActivePayload(db, w.job, sum) && (mark.Some? ==> MarkSeen(db, w.job, mark.value))
    case Stored(mark) => mark.Some? ==> MarkSeen(db, w.job, mark.value)
    case Failing(_, _) => true
  }

  ghost predicate ReconcilerFine(db: Db, r: Actor)
    requires r.Reconciler? && r.job < |db.jobs|
  {
    && JobMoves(r.seen, db.jobs[r.job])
    && (match r.reconcileStep
        case SawJob => true
        case SawAttempt(mark, validation) =>
          && (mark.Some? ==> mark.value.id < |db.attempts| && OwnId(db.attempts[mark.value.id]).Some?)
          && (validation ==> db.jobs[r.job].kind == DryRun)
        case Concluding(next) =>
          && StatusFits(db.jobs[r.job].kind, next)
          && (next == ApprovalPending ==> db.jobs[r.job].prepared))
  }

  predicate TargetFits(kind: Kind, target: Status)
  {
    target == if kind == DryRun then ApprovalPending else Status.Succeeded
  }

  ghost predicate ActorFine(db: Db, actor: Actor)
  {
    match actor
    case Approver(_, request, read) => ReadEarlier(db, request.dryRunJobId, read)
    case Worker(_, j, task, _) => j < |db.jobs| && TaskFits(db.jobs[j], task) && StageFine(db, actor)
    case Completer(_, j, completion, _) => j < |db.jobs| && TargetFits(db.jobs[j].kind, completion.target)
    case Reconciler(_, j, _, _) => j < |db.jobs| && ReconcilerFine(db, actor)
    case _ => true
  }

  // ---- The invariant ----

  ghost predicate BodiesFine(sys: System)
  {
    && (forall k, l | 0 <= k < l < |sys.bodies| :: sys.bodies[k] != sys.bodies[l])
    && (forall j | j in sys.bodies :: j < |sys.db.jobs| && sys.db.jobs[j].status != Queued)
    && (forall i, j | 0 <= i < |sys.actors| && InBodyOn(sys.actors[i], j) :: j in sys.bodies)
    && (forall a | 0 <= a < |sys.db.attempts| :: sys.db.attempts[a].jobId in sys.bodies)
  }

  // At most one worker is past the gate of a job.
  ghost predicate Exclusive(actors: seq<Actor>)
  {
    forall i, k, j | 0 <= i < |actors| && 0 <= k < |actors| && InBodyOn(actors[i], j) && InBodyOn(actors[k], j) :: i == k
  }

  ghost predicate StartFine(db: Db, s: StartCommand)
  {
    && s.attempt < |db.attempts| && db.attempts[s.attempt].jobId == s.job && db.attempts[s.attempt].operation == s.operation
    && (s.operation != Validate ==> db.attempts[s.attempt].validationId == s.validationId)
  }

  ghost predicate StartsFine(sys: System)
  {
    && (forall k | 0 <= k < |sys.starts| :: StartFine(sys.db, sys.starts[k]))
    && (forall k, l | 0 <= k < l < |sys.starts| :: sys.starts[k].attempt != sys.starts[l].attempt)
    && (forall i, k | 0 <= i < |sys.actors| && 0 <= k < |sys.starts| :: NotYetStarted(sys.actors[i], sys.starts[k].attempt))
  }

  predicate NotYetStarted(actor: Actor, started: AttemptId)
  {
    actor.Worker? && actor.stage.Intended? ==> actor.stage.attempt != started
  }

  ghost predicate DetailsSeen(db: Db, j: JobId, details: Details)
  {
    details.attemptId.Some? && details.attemptVersion.Some? ==>
      MarkSeen(db, j, AttemptMark(details.attemptId.value, details.attemptVersion.value))
  }

  // A result handed to complete() is about to be written, or is kept for retries, or the
  // job has finished, or its attempt has moved on.
  ghost predicate NotLost(sys: System, key: (ProcessId, JobId))
    requires key in sys.owed && key.1 < |sys.db.jobs|
  {
    || (exists i :: 0 <= i < |sys.actors| && sys.actors[i] == Completer(key.0, key.1, sys.owed[key], Trying))
    || key in sys.pending
    || Finished(sys.db.jobs[key.1].status)
    || !StillCurrent(sys.db, key.1, sys.owed[key].details)
  }

  ghost predicate OwedFine(sys: System, key: (ProcessId, JobId))
    requires key in sys.owed
  {
    && key.1 < |sys.db.jobs| && key.1 in sys.bodies
    && TargetFits(sys.db.jobs[key.1].kind, sys.owed[key].target)
    && DetailsSeen(sys.db, key.1, sys.owed[key].details)
    && (forall i | 0 <= i < |sys.actors| :: !InBodyOn(sys.actors[i], key.1))
    && NotLost(sys, key)
  }

  ghost predicate CompletionFine(sys: System)
  {
    && (forall key | key in sys.owed :: OwedFine(sys, key))
    && (forall key | key in sys.pending :: key in sys.owed && sys.pending[key] == sys.owed[key])
    && (forall i | 0 <= i < |sys.actors| && sys.actors[i].Completer? :: CompleterKnown(sys.owed, sys.actors[i]))
  }

  predicate CompleterKnown(owed: map<(ProcessId, JobId), Completion>, m: Actor)
    requires m.Completer?
  {
    (m.process, m.job) in owed && owed[(m.process, m.job)] == m.completion
  }

  ghost predicate SysInv(sys: System)
  {
    && DbInv(sys.db) && DbSys(sys.db)
    && (forall i | 0 <= i < |sys.actors| :: ActorFine(sys.db, sys.actors[i]))
    && BodiesFine(sys) && Exclusive(sys.actors) && StartsFine(sys) && CompletionFine(sys)
  }

  // ---- Facts that survive other actors' steps ----

  lemma MarkStays(db: Db, db': Db, j: JobId, mark: AttemptMark)
    requires Moves(db, db') && MarkSeen(db, j, mark)
    ensures MarkSeen(db', j, mark)
  {
    assert JobMoves(db.jobs[j], db'.jobs[j]) && AttemptMoves(db.attempts[mark.id], db'.attempts[mark.id]);
  }

  // An attempt that has moved on never comes back.
  lemma MovedOnStays(db: Db, db': Db, j: JobId, details: Details)
    requires DbInv(db) && DbInv(db') && Moves(db, db') && DetailsSeen(db, j, details) && j < |db.jobs|
    requires !StillCurrent(db, j, details)
    ensures !StillCurrent(db', j, details)
  {
    var a := details.attemptId.value;
    assert JobFine(db, j) && JobFine(db', j);
    assert JobMoves(db.jobs[j], db'.jobs[j]) && AttemptMoves(db.attempts[a], db'.attempts[a]);
  }

  lemma StageStays(db: Db, db': Db, w: Actor)
    requires DbInv(db) && SysKeeps(db, db') && w.Worker? && w.job < |db.jobs| && StageFine(db, w) && Still(db, db', w.job)
    requires TaskFits(db.jobs[w.job], w.task)
    ensures StageFine(db', w)
  {
    var j := w.job;
    assert JobMoves(db.jobs[j], db'.jobs[j]) && JobFine(db, j);
    match w.stage
    case Waiting =>
    case InBody =>
    case SawDeploy(current) =>
    case SawDryRun(current, dryRun) => DryRunRowStays(db, db', j, dryRun);
    case SawValidation(current, dryRun, validation, sum) => DryRunRowStays(db, db', j, dryRun);
    case Planned(sum, _, quick) =>
      if quick.Some? { QuickBackedStays(db, db', j, quick.value); }
    case Intended(a, sum) => assert AttemptMoves(db.attempts[a], db'.attempts[a]);
    case Started(a, sum) => assert AttemptMoves(db.attempts[a], db'.attempts[a]);
    case Returned(sum) => ActivePayloadStays(db, db', j, sum);
    case Ended(mark, sum) =>
      ActivePayloadStays(db, db', j, sum);
      if mark.Some? { MarkStays(db, db', j, mark.value); }
    case Stored(mark) => if mark.Some? { MarkStays(db, db', j, mark.value); }
    case Failing(_, _) =>
  }

  lemma ActivePayloadStays(db: Db, db': Db, j: JobId, sum: string)
    requires DbInv(db) && Moves(db, db') && j < |db.jobs| && ActivePayload(db, j, sum) && Still(db, db', j)
    ensures ActivePayload(db', j, sum)
  {
    assert JobFine(db, j);
    if db.jobs[j].activeAttempt.Some? {
      var a := db.jobs[j].activeAttempt.value;
      assert AttemptMoves(db.attempts[a], db'.attempts[a]);
    }
  }

  lemma DryRunRowStays(db: Db, db': Db, j: JobId, dryRun: Job)
    requires DbInv(db) && Moves(db, db') && j < |db.jobs| && ReadDryRunRow(db, j, dryRun)
    ensures ReadDryRunRow(db', j, dryRun)
    ensures CurrentRow(db', db.jobs[j].dryRunJobId.value) == CurrentRow(db, db.jobs[j].dryRunJobId.value)
  {
    ApprovedDryRunIsClosed(db, j);
    var d := db.jobs[j].dryRunJobId.value;
    ClosedRowStays(db, db', d);
    assert JobMoves(db.jobs[j], db'.jobs[j]) && JobFine(db, d);
  }

  lemma ReconcilerStays(db: Db, db': Db, r: Actor)
    requires Moves(db, db') && r.Reconciler? && r.job < |db.jobs| && ReconcilerFine(db, r)
    ensures ReconcilerFine(db', r)
  {
    assert JobMoves(db.jobs[r.job], db'.jobs[r.job]);
    JobMovesTransitive(r.seen, db.jobs[r.job], db'.jobs[r.job]);
    if r.reconcileStep.SawAttempt? && r.reconcileStep.mark.Some? {
      var a := r.reconcileStep.mark.value.id;
      assert AttemptMoves(db.attempts[a], db'.attempts[a]);
    }
  }

  lemma ActorStays(db: Db, db': Db, actor: Actor)
    requires DbInv(db) && SysKeeps(db, db') && ActorFine(db, actor)
    requires actor.Worker? && !actor.stage.Waiting? ==> Still(db, db', actor.job)
    ensures ActorFine(db', actor)
  {
    match actor
    case Approver(_, request, read) =>
      assert EvidenceKept(db, db', request.dryRunJobId);
      assert JobMoves(db.jobs[request.dryRunJobId], db'.jobs[request.dryRunJobId]);
    case Worker(_, j, task, stage) =>
      assert JobMoves(db.jobs[j], db'.jobs[j]);
      if !stage.Waiting? { StageStays(db, db', actor); }
    case Completer(_, j, _, _) => assert JobMoves(db.jobs[j], db'.jobs[j]);
    case Reconciler(_, j, _, _) => ReconcilerStays(db, db', actor);
    case _ =>
  }

  // ---- What an actor knows of the database after its own write ----

  ghost predicate AfterCall(db: Db, db': Db, call: Option<Call>, fault: Fault, now: int)
  {
    && SysKeeps(db, db')
    && OthersKeepEvidence(db, db', call)
    && ActivesKept(db, db', call)
    && OnlyBegunAreNew(db, db', call)
    && (call.Some? && call.value.CallBegin? && call.value.id < |db'.jobs| && Confirmed(db, call.value, fault, now) ==>
          OwnAttempt(db', call.value.id, |db.attempts|, call.value.payloadChecksum))
    && (call.Some? && call.value.CallApprove? && Confirmed(db, call.value, fault, now) ==>
          ApprovalYieldsJob(db, db', call.value.request, call.value.read, now))
  }

  ghost predicate OthersKeepEvidence(db: Db, db': Db, call: Option<Call>)
  {
    forall j | 0 <= j < |db.jobs| && !(call.Some? && Rewrites(call.value) == Some(j)) :: Still(db, db', j)
  }

  ghost predicate ActivesKept(db: Db, db': Db, call: Option<Call>)
  {
    forall j | 0 <= j < |db.jobs| && !(call.Some? && call.value.CallBegin?) ::
      j < |db'.jobs| && db'.jobs[j].activeAttempt == db.jobs[j].activeAttempt
  }

  ghost predicate OnlyBegunAreNew(db: Db, db': Db, call: Option<Call>)
  {
    forall a | |db.attempts| <= a < |db'.attempts| ::
      call.Some? && call.value.CallBegin? && db'.attempts[a].jobId == call.value.id
  }

  // The job an approval yields, new or existing, is an approved deployment.
  ghost predicate ApprovalYieldsJob(db: Db, db': Db, request: ApprovalRequest, read: Job, now: int)
  {
    var o := ApproveAndQueue(db, request, read, now);
    o.Committed? && o.value < |db'.jobs| && TaskFits(db'.jobs[o.value], ApprovedTask)
  }

  lemma ApprovedJobFits(db: Db, request: ApprovalRequest, read: Job, now: int)
    requires DbInv(db) && ApproveAndQueue(db, request, read, now).Committed?
    ensures ApprovalYieldsJob(db, ApproveAndQueue(db, request, read, now).db, request, read, now)
  {
    var existing := FindApproval(db.approvals, request.dryRunJobId);
    if existing.Some? {
      var a :| a in db.approvals && a.dryRunJobId == request.dryRunJobId && a.deployJobId == existing.value;
      var p :| 0 <= p < |db.approvals| && db.approvals[p] == a;
      assert ApprovalFine(db, p);
    }
  }

  lemma BegunIsOwn(db: Db, id: JobId, intent: Intent, now: int)
    requires MayBegin(db, id, intent.operation)
    ensures var db' := Begin(db, id, intent, now).db;
      id < |db'.jobs| && OwnAttempt(db', id, |db.attempts|, intent.payloadChecksum)
  {
  }

  lemma CallKeepsEvidence(db: Db, c: Call, now: int)
    ensures OthersKeepEvidence(db, Apply(db, c, now), Some(c))
  {
    forall j | 0 <= j < |db.jobs| && Rewrites(c) != Some(j) ensures Still(db, Apply(db, c, now), j) {
      OthersStill(db, c, now, j);
    }
  }

  lemma CallKeepsActives(db: Db, c: Call, now: int)
    ensures ActivesKept(db, Apply(db, c, now), Some(c))
  {
    forall j | 0 <= j < |db.jobs| && !c.CallBegin?
      ensures j < |Apply(db, c, now).jobs| && Apply(db, c, now).jobs[j].activeAttempt == db.jobs[j].activeAttempt
    {
      if Rewrites(c) != Some(j) { OthersStill(db, c, now, j); }
    }
  }

  lemma CallAddsOnlyBegun(db: Db, c: Call, now: int)
    ensures OnlyBegunAreNew(db, Apply(db, c, now), Some(c))
  {
  }

  lemma PerformKeeps(db: Db, call: Option<Call>, fault: Fault, now: int)
    requires DbInv(db) && DbSys(db) && (call.Some? ==> Permitted(db, call.value))
    ensures AfterCall(db, Perform(db, call, fault, now), call, fault, now)
  {
    NothingChanged(db);
    if call.Some? && fault != WriteLost { CallKeeps(db, call.value, fault, now); }
  }

  lemma CallKeeps(db: Db, c: Call, fault: Fault, now: int)
    requires DbInv(db) && DbSys(db) && Permitted(db, c)
    ensures AfterCall(db, Apply(db, c, now), Some(c), fault, now)
  {
    PermittedKeeps(db, c, now);
    CallKeepsEvidence(db, c, now);
    CallKeepsActives(db, c, now);
    CallAddsOnlyBegun(db, c, now);
    if c.CallBegin? && Commits(db, c, now) {
      BegunIsOwn(db, c.id, IntentOf(c.purpose, c.payloadChecksum, c.digestVersion, c.runDirectory), now);
    }
    if c.CallApprove? && Commits(db, c, now) { ApprovedJobFits(db, c.request, c.read, now); }
  }

  // ---- Every step of an actor is a permitted call and leaves it in a fine state ----

  ghost predicate GoodCall(db: Db, actor: Actor, f: Effect)
  {
    && (f.call.Some? ==> Permitted(db, f.call.value))
    && (f.call.Some? && Rewrites(f.call.value).Some? ==> InBodyOn(actor, Rewrites(f.call.value).value))
  }

  // The next actor is fine already before the write ...
  ghost predicate FineBefore(db: Db, f: Effect)
  {
    ActorFine(db, f.next) && (f.call.Some? ==> Rewrites(f.call.value).None?)
  }

  // ... or it has just tried to begin an attempt ...
  predicate HasBegun(db: Db, actor: Actor, f: Effect, now: int)
  {
    && f.call.Some? && f.call.value.CallBegin? && actor.Worker? && f.next.Worker?
    && f.call.value.id == actor.job && f.next.job == actor.job && f.next.task == actor.task
    && (f.next.stage.Failing?
        || (Confirmed(db, f.call.value, f.fault, now)
            && f.next.stage == Intended(|db.attempts|, f.call.value.payloadChecksum)))
  }

  // ... or it has recorded the artifacts of its own job ...
  predicate HasStored(actor: Actor, f: Effect)
  {
    && actor.Worker? && actor.stage.Ended? && f.next == actor.(stage := Stored(actor.stage.mark))
    && f.call.Some? && !f.call.value.CallBegin?
  }

  // ... or an approval has made it the worker of the approved job.
  predicate HasApproved(db: Db, f: Effect, now: int)
  {
    && f.call.Some? && f.call.value.CallApprove? && Confirmed(db, f.call.value, f.fault, now)
    && f.next.Worker? && f.next.task == ApprovedTask && f.next.stage.Waiting?
    && ApproveAndQueue(db, f.call.value.request, f.call.value.read, now).Committed?
    && f.next.job == ApproveAndQueue(db, f.call.value.request, f.call.value.read, now).value
  }

  ghost predicate GoodNext(db: Db, actor: Actor, f: Effect, now: int)
  {
    FineBefore(db, f) || HasBegun(db, actor, f, now) || HasStored(actor, f) || HasApproved(db, f, now)
  }

  // A worker's job keeps its kind and its link to a dry run.
  lemma WorkerKeepsTask(db: Db, db': Db, w: Actor)
    requires w.Worker? && w.job < |db.jobs| && TaskFits(db.jobs[w.job], w.task) && Moves(db, db')
    ensures w.job < |db'.jobs| && TaskFits(db'.jobs[w.job], w.task)
  {
    assert JobMoves(db.jobs[w.job], db'.jobs[w.job]);
  }

  lemma EndedStays(db: Db, db': Db, w: Actor)
    requires w.Worker? && w.stage.Ended? && ActorFine(db, w) && JobFine(db, w.job) && Moves(db, db')
    requires w.job < |db'.jobs| && TaskFits(db'.jobs[w.job], w.task)
    requires db'.jobs[w.job].activeAttempt == db.jobs[w.job].activeAttempt
    ensures ActorFine(db', w.(stage := Stored(w.stage.mark)))
  {
    if w.stage.mark.Some? { MarkStays(db, db', w.job, w.stage.mark.value); }
  }

  lemma NextIsFine(db: Db, db': Db, actor: Actor, f: Effect, now: int)
    requires DbInv(db) && ActorFine(db, actor) && GoodNext(db, actor, f, now)
    requires AfterCall(db, db', f.call, f.fault, now)
    ensures ActorFine(db', f.next)
  {
    if FineBefore(db, f) {
      if f.next.Worker? { assert Still(db, db', f.next.job); }
      ActorStays(db, db', f.next);
    } else if HasBegun(db, actor, f, now) {
      WorkerKeepsTask(db, db', actor);
    } else if HasStored(actor, f) {
      WorkerKeepsTask(db, db', actor);
      assert JobFine(db, actor.job);
      EndedStays(db, db', actor);
    } else {
      assert ApprovalYieldsJob(db, db', f.call.value.request, f.call.value.read, now);
    }
  }

  ghost predicate Good(sys: System, actor: Actor, f: Effect, now: int)
  {
    GoodCall(sys.db, actor, f) && GoodNext(sys.db, actor, f, now)
  }

  lemma WaitingStep(sys: System, w: Actor, c: Choice, now: int)
    requires w.Worker? && w.stage.Waiting? && ActorFine(sys.db, w) && JobFine(sys.db, w.job)
    ensures Good(sys, w, StepWaiting(sys, w, c, now), now)
  {
  }

  // Storing the intent of a submission.
  lemma BeginStep(sys: System, w: Actor, purpose: Purpose, sum: string, directory: string, fault: Fault, now: int)
    requires w.Worker? && !w.stage.Waiting? && ActorFine(sys.db, w) && JobFine(sys.db, w.job)
    requires sys.db.jobs[w.job].activeAttempt.None?
    requires w.task == DryRunTask <==> purpose.ForValidation?
    requires w.task == ApprovedTask ==> sum == sys.db.jobs[w.job].payloadChecksum
    requires purpose.ForQuickDeploy? ==> QuickBacked(sys.db, w.job, purpose.validationId)
    ensures Good(sys, w, BeginSubmission(sys, w, purpose, sum, directory, fault, now), now)
  {
    assert MayCallBegin(sys.db, w.job, purpose, sum, 2);
    assert HasBegun(sys.db, w, BeginSubmission(sys, w, purpose, sum, directory, fault, now), now);
  }

  lemma InBodyStep(sys: System, w: Actor, c: Choice, now: int)
    requires w.Worker? && w.stage.InBody? && ActorFine(sys.db, w) && JobFine(sys.db, w.job)
    ensures Good(sys, w, StepInBody(sys, w, c, now), now)
  {
    if c.Prepare? && w.task != ApprovedTask {
      BeginStep(sys, w, if w.task == DryRunTask then ForValidation else ForDeploy, c.sum, c.directory, c.fault, now);
    } else {
      assert FineBefore(sys.db, StepInBody(sys, w, c, now));
    }
  }

  lemma SawDeployStep(sys: System, w: Actor, c: Choice, now: int)
    requires w.Worker? && w.stage.SawDeploy? && ActorFine(sys.db, w)
    ensures Good(sys, w, StepSawDeploy(sys, w, c), now)
  {
    assert FineBefore(sys.db, StepSawDeploy(sys, w, c));
  }

  lemma SawDryRunStep(sys: System, w: Actor, c: Choice, now: int)
    requires w.Worker? && w.stage.SawDryRun? && ActorFine(sys.db, w)
    ensures Good(sys, w, StepSawDryRun(sys, w, c, now), now)
  {
    assert FineBefore(sys.db, StepSawDryRun(sys, w, c, now));
  }

  lemma PlanIsBacked(db: Db, w: Actor)
    requires w.Worker? && w.stage.SawValidation? && ActorFine(db, w)
    requires Evaluate(w.stage.dryRun, w.stage.current, w.stage.validation).mode == UseQuickDeploy
    ensures Evaluate(w.stage.dryRun, w.stage.current, w.stage.validation).validationId.Some?
      && QuickBacked(db, w.job, Evaluate(w.stage.dryRun, w.stage.current, w.stage.validation).validationId.value)
  {
    QuickDeployExactly(w.stage.dryRun, w.stage.current, w.stage.validation);
  }

  // A chosen plan is backed by the evidence, whatever becomes of writing it down.
  lemma PlanningStep(sys: System, w: Actor, c: Choice, now: int)
    requires w.Worker? && w.stage.SawValidation? && ActorFine(sys.db, w)
    ensures Good(sys, w, StepSawValidation(sys, w, c, now), now)
  {
    var f := StepSawValidation(sys, w, c, now);
    if c.Choose? {
      var verdict := Evaluate(w.stage.dryRun, w.stage.current, w.stage.validation);
      if verdict.mode == UseQuickDeploy { PlanIsBacked(sys.db, w); }
      PlannedIsFine(sys.db, w, f.next, verdict);
    }
    assert FineBefore(sys.db, f);
  }

  lemma PlannedIsFine(db: Db, w: Actor, next: Actor, verdict: Eligibility)
    requires w.Worker? && w.stage.SawValidation? && ActorFine(db, w)
    requires next.Worker? && next.job == w.job && next.task == w.task
    requires next.stage.Failing? || (next.stage.Planned? && next.stage.sum == w.stage.sum
      && next.stage.quick == if verdict.mode == UseQuickDeploy then verdict.validationId else None)
    requires verdict.mode == UseQuickDeploy && verdict.validationId.Some? ==> QuickBacked(db, w.job, verdict.validationId.value)
    ensures ActorFine(db, next)
  {
  }

  lemma PlannedStep(sys: System, w: Actor, c: Choice, now: int)
    requires w.Worker? && w.stage.Planned? && ActorFine(sys.db, w) && JobFine(sys.db, w.job)
    ensures Good(sys, w, StepPlanned(sys, w, c, now), now)
  {
    if c.Go? {
      BeginStep(sys, w, if w.stage.quick.Some? then ForQuickDeploy(w.stage.quick.value) else ForDeploy,
                w.stage.sum, w.stage.directory, c.fault, now);
    } else {
      assert FineBefore(sys.db, StepPlanned(sys, w, c, now));
    }
  }

  lemma IntendedStep(sys: System, w: Actor, c: Choice, now: int)
    requires w.Worker? && w.stage.Intended? && ActorFine(sys.db, w)
    ensures Good(sys, w, StepIntended(sys, w, c), now)
  {
    assert FineBefore(sys.db, StepIntended(sys, w, c));
  }

  lemma StartedStep(sys: System, w: Actor, c: Choice, now: int)
    requires w.Worker? && w.stage.Started? && ActorFine(sys.db, w)
    ensures Good(sys, w, StepStarted(sys, w, c), now)
  {
    assert FineBefore(sys.db, StepStarted(sys, w, c));
  }

  lemma ReturnedStep(sys: System, w: Actor, c: Choice, now: int)
    requires w.Worker? && w.stage.Returned? && ActorFine(sys.db, w) && JobFine(sys.db, w.job)
    ensures Good(sys, w, StepReturned(sys, w, c), now)
  {
    assert FineBefore(sys.db, StepReturned(sys, w, c));
  }

  lemma EndedStep(sys: System, w: Actor, c: Choice, now: int)
    requires w.Worker? && w.stage.Ended? && ActorFine(sys.db, w)
    ensures Good(sys, w, StepEnded(sys, w, c, now), now)
  {
    var f := StepEnded(sys, w, c, now);
    assert HasStored(w, f) || FineBefore(sys.db, f);
  }

  lemma StoredStep(sys: System, w: Actor, c: Choice, now: int)
    requires w.Worker? && w.stage.Stored? && ActorFine(sys.db, w)
    ensures Good(sys, w, StepStored(sys, w, c, now), now)
  {
    assert FineBefore(sys.db, StepStored(sys, w, c, now));
  }

  lemma FailingStep(sys: System, w: Actor, c: Choice, now: int)
    requires w.Worker? && w.stage.Failing? && ActorFine(sys.db, w)
    ensures Good(sys, w, StepFailing(sys, w, c), now)
  {
    assert FineBefore(sys.db, StepFailing(sys, w, c));
  }

  lemma WorkerStep(sys: System, w: Actor, c: Choice, now: int)
    requires w.Worker? && DbInv(sys.db) && ActorFine(sys.db, w)
    ensures Good(sys, w, StepWorker(sys, w, c, now), now)
  {
    assert JobFine(sys.db, w.job);
    match w.stage
    case Waiting => WaitingStep(sys, w, c, now);
    case InBody => InBodyStep(sys, w, c, now);
    case SawDeploy(_) => SawDeployStep(sys, w, c, now);
    case SawDryRun(_, _) => SawDryRunStep(sys, w, c, now);
    case SawValidation(_, _, _, _) => PlanningStep(sys, w, c, now);
    case Planned(_, _, _) => PlannedStep(sys, w, c, now);
    case Intended(_, _) => IntendedStep(sys, w, c, now);
    case Started(_, _) => StartedStep(sys, w, c, now);
    case Returned(_) => ReturnedStep(sys, w, c, now);
    case Ended(_, _) => EndedStep(sys, w, c, now);
    case Stored(_) => StoredStep(sys, w, c, now);
    case Failing(_, _) => FailingStep(sys, w, c, now);
  }

  lemma CompleterStep(sys: System, m: Actor, c: Choice, now: int)
    requires m.Completer? && ActorFine(sys.db, m)
    ensures Good(sys, m, StepCompleter(sys, m, c, now), now)
  {
    if m.step == Trying || m.step == RetryWriting {
      CompleterWrite(sys, m, c, now);
    } else {
      assert FineBefore(sys.db, StepCompleter(sys, m, c, now));
    }
  }

  lemma CompleterWrite(sys: System, m: Actor, c: Choice, now: int)
    requires m.Completer? && ActorFine(sys.db, m) && (m.step == Trying || m.step == RetryWriting)
    ensures Good(sys, m, StepCompleter(sys, m, c, now), now)
  {
    assert FineBefore(sys.db, StepCompleter(sys, m, c, now));
  }

  lemma ReconcilerStep(sys: System, r: Actor, c: Choice, now: int)
    requires r.Reconciler? && DbInv(sys.db) && DbSys(sys.db) && ActorFine(sys.db, r)
    ensures Good(sys, r, StepReconciler(sys, r, c, now), now)
  {
    var db := sys.db;
    assert JobFine(db, r.job);
    if db.jobs[r.job].activeAttempt.Some? {
      assert AttemptFine(db, db.jobs[r.job].activeAttempt.value) && AttemptSys(db, db.jobs[r.job].activeAttempt.value);
    }
    ReconcilerMove(sys, r, c, now);
  }

  lemma ReconcilerMove(sys: System, r: Actor, c: Choice, now: int)
    requires r.Reconciler? && ActorFine(sys.db, r) && JobFine(sys.db, r.job)
    requires sys.db.jobs[r.job].activeAttempt.Some? ==> AttemptSys(sys.db, sys.db.jobs[r.job].activeAttempt.value)
    ensures Good(sys, r, StepReconciler(sys, r, c, now), now)
  {
    if c.Observe? {
      ReconcilerReport(sys, r, c, now);
    } else {
      assert FineBefore(sys.db, StepReconciler(sys, r, c, now));
    }
  }

  lemma ReconcilerReport(sys: System, r: Actor, c: Choice, now: int)
    requires r.Reconciler? && ActorFine(sys.db, r) && JobFine(sys.db, r.job) && c.Observe?
    requires sys.db.jobs[r.job].activeAttempt.Some? ==> AttemptSys(sys.db, sys.db.jobs[r.job].activeAttempt.value)
    ensures Good(sys, r, StepReconciler(sys, r, c, now), now)
  {
    assert FineBefore(sys.db, StepReconciler(sys, r, c, now));
  }

  lemma BinderStep(sys: System, b: Actor, c: Choice, now: int)
    requires b.Binder?
    ensures Good(sys, b, StepBinder(sys, b, c, now), now)
  {
    assert FineBefore(sys.db, StepBinder(sys, b, c, now));
  }

  lemma ApproverStep(sys: System, p: Actor, c: Choice, now: int)
    requires p.Approver? && ActorFine(sys.db, p)
    ensures Good(sys, p, StepApprover(sys, p, c, now), now)
  {
    var f := StepApprover(sys, p, c, now);
    assert FineBefore(sys.db, f) || HasApproved(sys.db, f, now);
  }

  lemma OtherStep(sys: System, actor: Actor, c: Choice, now: int)
    requires actor.Gone? || actor.Recoverer? || actor.Expirer? || actor.Rejecter?
    ensures Good(sys, actor, EffectOf(sys, actor, c, now), now)
  {
    assert FineBefore(sys.db, EffectOf(sys, actor, c, now));
  }

  lemma EveryStepIsGood(sys: System, actor: Actor, c: Choice, now: int)
    requires DbInv(sys.db) && DbSys(sys.db) && ActorFine(sys.db, actor)
    ensures Good(sys, actor, EffectOf(sys, actor, c, now), now)
  {
    match actor
    case Approver(_, _, _) => ApproverStep(sys, actor, c, now);
    case Worker(_, _, _, _) => WorkerStep(sys, actor, c, now);
    case Completer(_, _, _, _) => CompleterStep(sys, actor, c, now);
    case Reconciler(_, _, _, _) => ReconcilerStep(sys, actor, c, now);
    case Binder(_, _, _, _, _, _) => BinderStep(sys, actor, c, now);
    case _ => OtherStep(sys, actor, c, now);
  }

  // ---- The history kept beside the database ----

  ghost predicate EnteredBody(sys: System, db': Db, actor: Actor, f: Effect)
  {
    && actor.Worker? && actor.stage.Waiting? && InBodyOn(f.next, actor.job) && f.bodies == sys.bodies + [actor.job]
    && actor.job < |sys.db.jobs| && actor.job < |db'.jobs|
    && sys.db.jobs[actor.job].status == Queued && db'.jobs[actor.job].status != Queued
  }

  ghost predicate StaysOut(sys: System, actor: Actor, f: Effect)
  {
    f.bodies == sys.bodies && forall j | InBodyOn(f.next, j) :: InBodyOn(actor, j)
  }

  lemma WaitingEnters(sys: System, w: Actor, c: Choice, now: int)
    requires w.Worker? && w.stage.Waiting?
    ensures var f := StepWaiting(sys, w, c, now);
      StaysOut(sys, w, f) || EnteredBody(sys, Perform(sys.db, f.call, f.fault, now), w, f)
  {
  }

  lemma WorkersStayOut(sys: System, w: Actor, c: Choice, now: int)
    requires w.Worker? && !w.stage.Waiting?
    ensures StaysOut(sys, w, StepWorker(sys, w, c, now))
  {
  }

  lemma OthersStayOut(sys: System, actor: Actor, c: Choice, now: int)
    requires !actor.Worker?
    ensures StaysOut(sys, actor, EffectOf(sys, actor, c, now))
  {
  }

  lemma BodyEffect(sys: System, actor: Actor, c: Choice, now: int)
    ensures var f := EffectOf(sys, actor, c, now);
      StaysOut(sys, actor, f) || EnteredBody(sys, Perform(sys.db, f.call, f.fault, now), actor, f)
  {
    if !actor.Worker? { OthersStayOut(sys, actor, c, now); }
    else if actor.stage.Waiting? { WaitingEnters(sys, actor, c, now); }
    else { WorkersStayOut(sys, actor, c, now); }
  }

  lemma BodiesKept(sys: System, i: nat, f: Effect, db': Db, now: int)
    requires i < |sys.actors| && BodiesFine(sys) && Exclusive(sys.actors) && AfterCall(sys.db, db', f.call, f.fault, now)
    requires GoodCall(sys.db, sys.actors[i], f)
    requires StaysOut(sys, sys.actors[i], f) || EnteredBody(sys, db', sys.actors[i], f)
    ensures BodiesFine(System(db', sys.actors[i := f.next], f.pending, f.owed, f.bodies, f.starts))
    ensures Exclusive(sys.actors[i := f.next])
  {
    var sys' := System(db', sys.actors[i := f.next], f.pending, f.owed, f.bodies, f.starts);
    forall j | j in sys'.bodies ensures j < |db'.jobs| && db'.jobs[j].status != Queued {
      if j in sys.bodies { assert JobMoves(sys.db.jobs[j], db'.jobs[j]); }
    }
    forall a | 0 <= a < |db'.attempts| ensures db'.attempts[a].jobId in sys'.bodies {
      if a < |sys.db.attempts| { assert AttemptMoves(sys.db.attempts[a], db'.attempts[a]); }
    }
    forall k, j | 0 <= k < |sys'.actors| && InBodyOn(sys'.actors[k], j) ensures j in sys'.bodies {
      if k != i { assert InBodyOn(sys.actors[k], j); }
    }
    forall k, l, j | 0 <= k < |sys'.actors| && 0 <= l < |sys'.actors| && InBodyOn(sys'.actors[k], j) && InBodyOn(sys'.actors[l], j)
      ensures k == l
    {
      assert k != i ==> InBodyOn(sys.actors[k], j) && j in sys.bodies;
      assert l != i ==> InBodyOn(sys.actors[l], j) && j in sys.bodies;
    }
  }

  predicate BeginsOrKeeps(db: Db, actor: Actor, next: Actor)
  {
    next.Worker? && next.stage.Intended? ==>
      next.stage.attempt == |db.attempts| || (actor.Worker? && actor.stage.Intended? && actor.stage.attempt == next.stage.attempt)
  }

  // Only the actor that holds the intent issues a start command, for exactly that intent.
  predicate Starts(db: Db, actor: Actor, f: Effect, starts: seq<StartCommand>)
  {
    && actor.Worker? && actor.stage.Intended? && actor.stage.attempt < |db.attempts|
    && f.next == actor.(stage := Started(actor.stage.attempt, actor.stage.sum)) && f.call.None?
    && f.starts == starts + [StartCommand(actor.job, actor.stage.attempt, db.attempts[actor.stage.attempt].operation,
                                          db.attempts[actor.stage.attempt].validationId)]
  }

  lemma WorkerStarts(sys: System, w: Actor, c: Choice, now: int)
    requires w.Worker? && !w.stage.Intended?
    ensures var f := StepWorker(sys, w, c, now); f.starts == sys.starts && BeginsOrKeeps(sys.db, w, f.next)
  {
  }

  lemma IntendedStarts(sys: System, w: Actor, c: Choice)
    requires w.Worker? && w.stage.Intended?
    ensures var f := StepIntended(sys, w, c);
      (f.starts == sys.starts && BeginsOrKeeps(sys.db, w, f.next)) || Starts(sys.db, w, f, sys.starts)
  {
  }

  lemma StartEffect(sys: System, actor: Actor, c: Choice, now: int)
    ensures var f := EffectOf(sys, actor, c, now);
      (f.starts == sys.starts && BeginsOrKeeps(sys.db, actor, f.next)) || Starts(sys.db, actor, f, sys.starts)
  {
    if actor.Worker? {
      if actor.stage.Intended? { IntendedStarts(sys, actor, c); } else { WorkerStarts(sys, actor, c, now); }
    }
  }

  lemma StartStays(db: Db, db': Db, s: StartCommand)
    requires Moves(db, db') && StartFine(db, s)
    ensures StartFine(db', s)
  {
    assert AttemptMoves(db.attempts[s.attempt], db'.attempts[s.attempt]);
  }

  lemma StartsKept(sys: System, i: nat, f: Effect, db': Db)
    requires i < |sys.actors| && StartsFine(sys) && Exclusive(sys.actors) && Moves(sys.db, db')
    requires forall k | 0 <= k < |sys.actors| :: ActorFine(sys.db, sys.actors[k])
    requires (f.starts == sys.starts && BeginsOrKeeps(sys.db, sys.actors[i], f.next)) || Starts(sys.db, sys.actors[i], f, sys.starts)
    ensures StartsFine(System(db', sys.actors[i := f.next], f.pending, f.owed, f.bodies, f.starts))
  {
    var sys' := System(db', sys.actors[i := f.next], f.pending, f.owed, f.bodies, f.starts);
    var actor := sys.actors[i];
    assert ActorFine(sys.db, actor);
    forall k | 0 <= k < |sys'.starts| ensures StartFine(db', sys'.starts[k]) {
      if k < |sys.starts| { assert StartFine(sys.db, sys.starts[k]); }
      StartStays(sys.db, db', sys'.starts[k]);
    }
    forall k, l | 0 <= k < l < |sys'.starts| ensures sys'.starts[k].attempt != sys'.starts[l].attempt {
      if l == |sys.starts| { assert NotYetStarted(actor, sys.starts[k].attempt); }
    }
    forall x, k | 0 <= x < |sys'.actors| && 0 <= k < |sys'.starts| ensures NotYetStarted(sys'.actors[x], sys'.starts[k].attempt) {
      if k < |sys.starts| {
        assert NotYetStarted(sys.actors[x], sys.starts[k].attempt) && StartFine(sys.db, sys.starts[k]);
      } else if x != i {
        assert ActorFine(sys.db, sys.actors[x]);
        assert InBodyOn(actor, actor.job);
        if sys.actors[x].Worker? && sys.actors[x].stage.Intended? { assert InBodyOn(sys.actors[x], sys.actors[x].job); }
      }
    }
  }
}
