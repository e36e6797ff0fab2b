// An approved deployment is submitted only on good evidence: in every run, behind every start
// command of an approved job stands a dry run that Salesforce reported as a success, with
// the same tests and payload, and no validation that is still in doubt.
module DeploymentEligibility {
  import opened Options
  import opened DeploymentModel
  import opened DeploymentSteps
  import opened DeploymentRuns
  import opened QuickDeploy
  import opened DeploymentDiscipline
  import opened DeploymentProtocol
  import opened DeploymentSafety
  import opened DeploymentInvariant
  import opened DeploymentTheorems

  // ---- Two steps of the approved task ----

  // Before it reads the tracked validation the task checks again that the dry run is approvable
  // and at most thirty minutes old, and that the package measured now is the approved one.
  lemma RecheckedExactly(sys: System, w: Actor, measured: string, now: int)
    requires w.Worker? && w.stage.SawDryRun?
    ensures var next := StepSawDryRun(sys, w, Measure(measured), now).next;
      var (current, dryRun) := (w.stage.current, w.stage.dryRun);
      && next.Worker? && (next.stage.SawValidation? || next == FailWith(w, false))
      && (next.stage.SawValidation? <==> (
            && dryRun.kind == DryRun && dryRun.status == ApprovalPending && dryRun.prepared && dryRun.runDirectory.Some?
            && dryRun.testPlan.Some? && dryRun.completedAt.Some? && now <= dryRun.completedAt.value + 1_800_000
            && measured == current.payloadChecksum && current.dryRunJobId.Some?))
      && (next.stage.SawValidation? ==>
            next.stage.sum == measured && next.stage.validation == CurrentRow(sys.db, current.dryRunJobId.value))
  {
  }

  // The verdict is written down and obeyed: the task goes on exactly on complete evidence with
  // no tracked validation or a good one, reusing it exactly if it can be and that is enabled;
  // a validation in doubt sends the job to reconciliation, anything else fails it.
  lemma VerdictIsObeyed(sys: System, w: Actor, quickEnabled: bool, fault: Fault, now: int)
    requires w.Worker? && w.stage.SawValidation?
    ensures var f := StepSawValidation(sys, w, Choose(quickEnabled, fault), now);
      var (dryRun, current, validation) := (w.stage.dryRun, w.stage.current, w.stage.validation);
      var complete := EvidenceComplete(dryRun, current);
      var written := fault == NoFault && w.job < |sys.db.jobs| && sys.db.jobs[w.job].kind == Deployment
        && sys.db.jobs[w.job].status == Deploying;
      var quick := complete && Reusable(dryRun, validation);
      && f.next.Worker? && (f.next.stage.Planned? || f.next.stage.Failing?)
      && (f.next.stage.Planned? <==> (
            && written && complete && dryRun.runDirectory.Some?
            && (Tracked(validation) ==> Validated(dryRun, validation)) && (quick ==> quickEnabled)))
      && (f.next.stage.Planned? ==> (
            && f.next.stage.sum == w.stage.sum && Some(f.next.stage.directory) == dryRun.runDirectory
            && f.next.stage.quick == if quick then validation.value.validationId else None))
      && (f.next.stage.Failing? && f.next.stage.unknown <==> written && complete && InDoubt(validation))
  {
    ModesExactly(w.stage.dryRun, w.stage.current, w.stage.validation);
    QuickDeployExactly(w.stage.dryRun, w.stage.current, w.stage.validation);
  }

  // ---- The evidence ----

  // What a dry run has to show before anything is submitted for it.
  ghost predicate Eligible(db: Db, d: JobId)
  {
    && d < |db.jobs| && Closed(db.jobs[d].status)
    && db.jobs[d].testPlan.Some? && CheckOnlySuccess(db.jobs[d].dryRunResult)
    && (Tracked(CurrentRow(db, d)) ==> Validated(db.jobs[d], CurrentRow(db, d)))
  }

  lemma EligibleStays(db: Db, db': Db, d: JobId)
    requires DbInv(db) && Moves(db, db') && Eligible(db, d)
    ensures Eligible(db', d)
  {
    ClosedRowStays(db, db', d);
    assert JobFine(db, d);
  }

  ghost predicate EligibleFor(db: Db, j: JobId)
  {
    j < |db.jobs| && (db.jobs[j].dryRunJobId.Some? ==> Eligible(db, db.jobs[j].dryRunJobId.value))
  }

  lemma EligibleForStays(db: Db, db': Db, j: JobId)
    requires DbInv(db) && Moves(db, db') && EligibleFor(db, j)
    ensures EligibleFor(db', j)
  {
    assert JobMoves(db.jobs[j], db'.jobs[j]);
    if db.jobs[j].dryRunJobId.Some? { EligibleStays(db, db', db.jobs[j].dryRunJobId.value); }
  }

  // ---- The invariant: whoever may submit, or has, is eligible ----

  predicate IsPlanned(actor: Actor) { actor.Worker? && actor.stage.Planned? }

  ghost predicate PlannedFine(db: Db, actor: Actor)
  {
    IsPlanned(actor) ==> EligibleFor(db, actor.job)
  }

  ghost predicate AttemptsEligible(db: Db)
  {
    forall a | 0 <= a < |db.attempts| :: EligibleFor(db, db.attempts[a].jobId)
  }

  ghost predicate EvidenceInv(sys: System)
  {
    AttemptsEligible(sys.db) && forall i | 0 <= i < |sys.actors| :: PlannedFine(sys.db, sys.actors[i])
  }

  lemma DecidingPlansOnVerdict(sys: System, w: Actor, c: Choice, now: int)
    requires w.Worker? && w.stage.SawValidation?
    ensures var next := StepSawValidation(sys, w, c, now).next;
      IsPlanned(next) ==>
        next.job == w.job
        && Evaluate(w.stage.dryRun, w.stage.current, w.stage.validation).mode in {UseQuickDeploy, UseStandardDeploy}
  {
  }

  lemma SubmittersDoNotPlan(sys: System, w: Actor, c: Choice, now: int)
    requires w.Worker? && (w.stage.Returned? || w.stage.Ended? || w.stage.Stored? || w.stage.Failing? || w.stage.Started? || w.stage.Intended?)
    ensures !IsPlanned(StepWorker(sys, w, c, now).next)
  {
  }

  lemma ReadersDoNotPlan(sys: System, w: Actor, c: Choice, now: int)
    requires w.Worker? && (w.stage.Waiting? || w.stage.InBody? || w.stage.SawDeploy? || w.stage.SawDryRun?)
    ensures !IsPlanned(StepWorker(sys, w, c, now).next)
  {
  }

  lemma PlannersKeepTheirJob(sys: System, w: Actor, c: Choice, now: int)
    requires IsPlanned(w)
    ensures IsPlanned(StepWorker(sys, w, c, now).next) ==> StepWorker(sys, w, c, now).next.job == w.job
  {
  }

  // A worker plans its submission only when the verdict allows one.
  lemma PlansOnVerdict(sys: System, w: Actor, c: Choice, now: int)
    requires w.Worker? && IsPlanned(StepWorker(sys, w, c, now).next)
    ensures StepWorker(sys, w, c, now).next.job == w.job
    ensures w.stage.Planned?
      || (w.stage.SawValidation?
          && Evaluate(w.stage.dryRun, w.stage.current, w.stage.validation).mode in {UseQuickDeploy, UseStandardDeploy})
  {
    if w.stage.SawValidation? { DecidingPlansOnVerdict(sys, w, c, now); }
    else if w.stage.Planned? { PlannersKeepTheirJob(sys, w, c, now); }
    else if w.stage.Waiting? || w.stage.InBody? || w.stage.SawDeploy? || w.stage.SawDryRun? { ReadersDoNotPlan(sys, w, c, now); }
    else { SubmittersDoNotPlan(sys, w, c, now); }
  }

  predicate PlansNothing(f: Effect)
  {
    !IsPlanned(f.next) && !(f.call.Some? && f.call.value.CallBegin?)
  }

  lemma ReconcilersDoNotPlan(sys: System, r: Actor, c: Choice, now: int)
    requires r.Reconciler?
    ensures PlansNothing(StepReconciler(sys, r, c, now))
  {
  }

  lemma CompletersDoNotPlan(sys: System, m: Actor, c: Choice, now: int)
    requires m.Completer?
    ensures PlansNothing(StepCompleter(sys, m, c, now))
  {
  }

  lemma OthersDoNotPlan(sys: System, actor: Actor, c: Choice, now: int)
    requires !actor.Worker?
    ensures PlansNothing(EffectOf(sys, actor, c, now))
  {
    if actor.Reconciler? { ReconcilersDoNotPlan(sys, actor, c, now); }
    else if actor.Completer? { CompletersDoNotPlan(sys, actor, c, now); }
  }

  // An intent is stored by a worker that has planned, or that is on no approved task.
  lemma BeginsAsPlanned(sys: System, w: Actor, c: Choice, now: int)
    requires w.Worker?
    ensures var f := StepWorker(sys, w, c, now);
      f.call.Some? && f.call.value.CallBegin? ==>
        f.call.value.id == w.job && (w.stage.Planned? || w.task != ApprovedTask)
  {
  }

  lemma VerdictMeansEligible(db: Db, w: Actor)
    requires w.Worker? && w.stage.SawValidation? && DbInv(db) && ActorFine(db, w)
    requires Evaluate(w.stage.dryRun, w.stage.current, w.stage.validation).mode in {UseQuickDeploy, UseStandardDeploy}
    ensures EligibleFor(db, w.job)
  {
    ModesExactly(w.stage.dryRun, w.stage.current, w.stage.validation);
  }

  // Workers on other tasks have jobs without a dry run.
  lemma OtherTasksNeedNone(db: Db, w: Actor)
    requires w.Worker? && DbInv(db) && ActorFine(db, w) && w.task != ApprovedTask
    ensures EligibleFor(db, w.job)
  {
    assert JobFine(db, w.job);
  }

  lemma WorkerStaysEligible(sys: System, w: Actor, c: Choice, now: int)
    requires w.Worker? && DbInv(sys.db) && ActorFine(sys.db, w) && PlannedFine(sys.db, w)
    ensures var f := StepWorker(sys, w, c, now);
      && PlannedFine(sys.db, f.next)
      && (f.call.Some? && f.call.value.CallBegin? ==> EligibleFor(sys.db, f.call.value.id))
  {
    if IsPlanned(StepWorker(sys, w, c, now).next) { PlansOnVerdict(sys, w, c, now); }
    BeginsAsPlanned(sys, w, c, now);
    if w.task != ApprovedTask { OtherTasksNeedNone(sys.db, w); }
    if w.stage.SawValidation?
      && Evaluate(w.stage.dryRun, w.stage.current, w.stage.validation).mode in {UseQuickDeploy, UseStandardDeploy} {
      VerdictMeansEligible(sys.db, w);
    }
  }

  lemma ActorStaysEligible(sys: System, actor: Actor, c: Choice, now: int)
    requires DbInv(sys.db) && ActorFine(sys.db, actor) && PlannedFine(sys.db, actor)
    ensures var f := EffectOf(sys, actor, c, now);
      && PlannedFine(sys.db, f.next)
      && (f.call.Some? && f.call.value.CallBegin? ==> EligibleFor(sys.db, f.call.value.id))
  {
    if actor.Worker? { WorkerStaysEligible(sys, actor, c, now); } else { OthersDoNotPlan(sys, actor, c, now); }
  }

  // ---- Every event ----

  lemma AttemptsStayEligible(db: Db, db': Db, call: Option<Call>)
    requires DbInv(db) && Moves(db, db') && AttemptsEligible(db) && OnlyBegunAreNew(db, db', call)
    requires call.Some? && call.value.CallBegin? ==> EligibleFor(db, call.value.id)
    ensures AttemptsEligible(db')
  {
    forall a | 0 <= a < |db'.attempts| ensures EligibleFor(db', db'.attempts[a].jobId) {
      if a < |db.attempts| { assert AttemptMoves(db.attempts[a], db'.attempts[a]); }
      EligibleForStays(db, db', db'.attempts[a].jobId);
    }
  }

  lemma PlannersStayEligible(db: Db, db': Db, actors: seq<Actor>)
    requires DbInv(db) && Moves(db, db') && forall i | 0 <= i < |actors| :: PlannedFine(db, actors[i])
    ensures forall i | 0 <= i < |actors| :: PlannedFine(db', actors[i])
  {
    forall i | 0 <= i < |actors| ensures PlannedFine(db', actors[i]) {
      assert PlannedFine(db, actors[i]);
      if IsPlanned(actors[i]) { EligibleForStays(db, db', actors[i].job); }
    }
  }

  lemma ActKeepsEvidence(sys: System, i: nat, c: Choice, now: int)
    requires SysInv(sys) && EvidenceInv(sys) && i < |sys.actors|
    ensures EvidenceInv(Do(sys, Act(i, c), now))
  {
    var f := EffectOf(sys, sys.actors[i], c, now);
    var db' := Perform(sys.db, f.call, f.fault, now);
    ActIsStep(sys, i, c, now);
    EveryStepIsSound(sys, i, c, now);
    assert ActorFine(sys.db, sys.actors[i]) && PlannedFine(sys.db, sys.actors[i]);
    ActorStaysEligible(sys, sys.actors[i], c, now);
    AttemptsStayEligible(sys.db, db', f.call);
    PlannersStayEligible(sys.db, db', sys.actors[i := f.next]);
  }

  // The other events begin nothing, and who joins has planned nothing.
  lemma OtherEventsBeginNothing(sys: System, e: Event, now: int)
    requires !e.Act?
    ensures var sys' := Do(sys, e, now);
      && sys'.db.attempts == sys.db.attempts
      && forall i | 0 <= i < |sys'.actors| ::
           (i < |sys.actors| && sys'.actors[i] == sys.actors[i]) || !IsPlanned(sys'.actors[i])
  {
    if e.Crash? {
      assert forall i | 0 <= i < |sys.actors| :: Dead(sys.actors, e.process)[i] == sys.actors[i] || Dead(sys.actors, e.process)[i] == Gone;
    }
  }

  lemma EventKeepsEvidence(sys: System, e: Event, now: int)
    requires SysInv(sys) && EvidenceInv(sys)
    ensures EvidenceInv(Do(sys, e, now))
  {
    if e.Act? {
      if e.actor < |sys.actors| { ActKeepsEvidence(sys, e.actor, e.choice, now); }
    } else {
      var sys' := Do(sys, e, now);
      OtherEventsBeginNothing(sys, e, now);
      EventKeeps(sys, e, now);
      AttemptsStayEligible(sys.db, sys'.db, None);
      PlannersStayEligible(sys.db, sys'.db, sys.actors);
    }
  }

  lemma {:induction false} PlayKeepsEvidence(events: seq<TimedEvent>)
    ensures EvidenceInv(Play(BOOT, events))
  {
    if events != [] {
      var last := |events| - 1;
      PlayKeepsEvidence(events[..last]);
      BootIsFine();
      PlayKeeps(BOOT, events[..last]);
      EventKeepsEvidence(Play(BOOT, events[..last]), events[last].event, events[last].now);
    }
  }

  // ---- The theorem ----

  // In every reached state, behind every start command of an approved job stands a prepared,
  // approved dry run of the same payload and tests that Salesforce reported as a check-only
  // success; its tracked validation, if there is one, ended in success for that payload and
  // org, so none is in doubt.
  lemma ApprovedStartsAreValidated(sys: System, k: nat)
    requires Reached(sys) && k < |sys.starts| && sys.starts[k].job < |sys.db.jobs|
    requires sys.db.jobs[sys.starts[k].job].dryRunJobId.Some?
    ensures var j := sys.starts[k].job; var d := sys.db.jobs[j].dryRunJobId.value;
      && d < |sys.db.jobs|
      && var (job, dryRun) := (sys.db.jobs[j], sys.db.jobs[d]);
      && dryRun.kind == DryRun && dryRun.status == ApprovalPending && dryRun.prepared
      && job.payloadChecksum == dryRun.payloadChecksum
      && dryRun.testPlan.Some? && job.testPlan == dryRun.testPlan
      && dryRun.dryRunResult.Some?
      && (var r := dryRun.dryRunResult.value;
          && r.checkOnly == Some(true) && r.success != Some(false)
          && (r.done == Some(true) || r.status in {Some("Succeeded"), Some("SucceededPartial")}))
      && forall a | 0 <= a < |sys.db.attempts| && sys.db.attempts[a].jobId == d ::
           var v := sys.db.attempts[a];
           v.operation == Validate && v.state == Terminal && v.remoteStatus == RemoteSucceeded
           && v.payloadChecksum == job.payloadChecksum && Some(v.targetIdentity) == job.targetIdentity
  {
    var events :| Play(BOOT, events) == sys;
    PlayKeepsEvidence(events);
    StartsMatchIntents(sys, k);
    Reachable(sys);
    var db, j := sys.db, sys.starts[k].job;
    var d := db.jobs[j].dryRunJobId.value;
    assert EligibleFor(db, db.attempts[sys.starts[k].attempt].jobId);
    ApprovedJobAndDryRun(db, j);
    forall a | 0 <= a < |db.attempts| && db.attempts[a].jobId == d
      ensures var v := db.attempts[a];
        v.operation == Validate && v.state == Terminal && v.remoteStatus == RemoteSucceeded
        && v.payloadChecksum == db.jobs[j].payloadChecksum && Some(v.targetIdentity) == db.jobs[j].targetIdentity
    {
      assert AttemptFine(db, a) && AttemptSys(db, a) && JobFine(db, d);
      OneAttempt(db, a, db.jobs[d].activeAttempt.value);
    }
  }
}
