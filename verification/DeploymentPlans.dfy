// The recorded plan is the one that is carried out: in every run the submission of an approved
// deployment is of the execution mode its row names, and reuses the validation named there.
module DeploymentPlans {
  import opened Options
  import opened DeploymentModel
  import opened DeploymentSteps
  import opened DeploymentRuns
  import opened QuickDeploy
  import opened DeploymentDiscipline
  import opened DeploymentProtocol
  import opened DeploymentSafety
  import opened DeploymentInvariant
  import opened DeploymentTheorems
  import opened DeploymentEligibility

  // The row records a Quick Deploy of this validation, or a standard deployment.
  predicate PlanIs(job: Job, quick: Option<string>)
  {
    job.executionMode == Some(if quick.Some? then UseQuickDeploy else UseStandardDeploy) && job.reusedValidationId == quick
  }

  ghost predicate AttemptAsPlanned(db: Db, a: AttemptId)
    requires a < |db.attempts|
  {
    var attempt := db.attempts[a];
    && attempt.jobId < |db.jobs|
    && (db.jobs[attempt.jobId].dryRunJobId.Some? ==>
          && attempt.operation in {Deploy, QuickDeploy} && (attempt.operation == QuickDeploy <==> attempt.validationId.Some?)
          && PlanIs(db.jobs[attempt.jobId], attempt.validationId))
  }

  ghost predicate PlannedAsRecorded(db: Db, actor: Actor)
  {
    IsPlanned(actor) ==> actor.job < |db.jobs| && PlanIs(db.jobs[actor.job], actor.stage.quick)
  }

  ghost predicate PlansInv(sys: System)
  {
    && (forall a | 0 <= a < |sys.db.attempts| :: AttemptAsPlanned(sys.db, a))
    && (forall i | 0 <= i < |sys.actors| :: PlannedAsRecorded(sys.db, sys.actors[i]))
  }

  // ---- Who writes plans ----

  predicate PlansFor(call: Option<Call>, j: JobId) { call.Some? && call.value.CallPlan? && call.value.id == j }

  lemma OnlyPlansChangePlans(db: Db, c: Call, now: int, j: JobId)
    requires j < |db.jobs| && !(c.CallPlan? && c.id == j)
    ensures j < |Apply(db, c, now).jobs|
    ensures Apply(db, c, now).jobs[j].executionMode == db.jobs[j].executionMode
    ensures Apply(db, c, now).jobs[j].reusedValidationId == db.jobs[j].reusedValidationId
  {
  }

  lemma PlanStays(db: Db, call: Option<Call>, fault: Fault, now: int, j: JobId, quick: Option<string>)
    requires j < |db.jobs| && PlanIs(db.jobs[j], quick) && !PlansFor(call, j)
    ensures j < |Perform(db, call, fault, now).jobs| && PlanIs(Perform(db, call, fault, now).jobs[j], quick)
  {
    if call.Some? && fault != WriteLost { OnlyPlansChangePlans(db, call.value, now, j); }
  }

  lemma DecidingWritesPlan(sys: System, w: Actor, c: Choice, now: int)
    requires w.Worker? && w.stage.SawValidation? && w.job < |sys.db.jobs|
    ensures var f := StepSawValidation(sys, w, c, now); var db' := Perform(sys.db, f.call, f.fault, now);
      && (f.call.Some? ==> f.call.value.CallPlan? && f.call.value.id == w.job)
      && (IsPlanned(f.next) ==> f.next.job == w.job && w.job < |db'.jobs| && PlanIs(db'.jobs[w.job], f.next.stage.quick))
  {
    QuickDeployExactly(w.stage.dryRun, w.stage.current, w.stage.validation);
  }

  lemma OtherWorkersWriteNone(sys: System, w: Actor, c: Choice, now: int, j: JobId)
    requires w.Worker? && !w.stage.SawValidation?
    ensures !PlansFor(StepWorker(sys, w, c, now).call, j)
  {
  }

  lemma OthersWriteNone(sys: System, actor: Actor, c: Choice, now: int, j: JobId)
    requires !actor.Worker?
    ensures !PlansFor(EffectOf(sys, actor, c, now).call, j)
  {
  }

  // A plan is written only by the worker of the job, when it has read the validation.
  lemma PlansAreTheWorkers(sys: System, actor: Actor, c: Choice, now: int, j: JobId)
    requires PlansFor(EffectOf(sys, actor, c, now).call, j) && (actor.Worker? ==> actor.job < |sys.db.jobs|)
    ensures actor.Worker? && actor.stage.SawValidation? && actor.job == j && InBodyOn(actor, j)
  {
    if !actor.Worker? { OthersWriteNone(sys, actor, c, now, j); }
    else if !actor.stage.SawValidation? { OtherWorkersWriteNone(sys, actor, c, now, j); }
    else { DecidingWritesPlan(sys, actor, c, now); }
  }

  // What an approved task submits is what it has planned.
  lemma BegunAsPlanned(sys: System, w: Actor, c: Choice, now: int)
    requires w.Worker? && w.task == ApprovedTask
    ensures var f := StepWorker(sys, w, c, now);
      f.call.Some? && f.call.value.CallBegin? ==>
        w.stage.Planned? && f.call.value.id == w.job
        && f.call.value.purpose == if w.stage.quick.Some? then ForQuickDeploy(w.stage.quick.value) else ForDeploy
  {
  }

  lemma StillPlanned(sys: System, w: Actor, c: Choice, now: int)
    requires IsPlanned(w) && IsPlanned(StepWorker(sys, w, c, now).next)
    ensures StepWorker(sys, w, c, now).next == w
  {
  }

  lemma BeganThis(db: Db, c: Call, now: int)
    requires c.CallBegin?
    ensures var db' := Apply(db, c, now);
      db'.attempts == db.attempts
      || (|db'.attempts| == |db.attempts| + 1 && db'.attempts[..|db.attempts|] == db.attempts
          && var attempt := db'.attempts[|db.attempts|];
             && attempt.jobId == c.id
             && attempt.operation == IntentOf(c.purpose, c.payloadChecksum, c.digestVersion, c.runDirectory).operation
             && attempt.validationId == (if c.purpose.ForQuickDeploy? then Some(c.purpose.validationId) else None))
  {
  }

  // ---- Attempts ----

  lemma OldAttemptAsPlanned(db: Db, call: Option<Call>, fault: Fault, now: int, a: AttemptId)
    requires DbInv(db) && a < |db.attempts| && AttemptAsPlanned(db, a) && !PlansFor(call, db.attempts[a].jobId)
    requires Moves(db, Perform(db, call, fault, now))
    ensures a < |Perform(db, call, fault, now).attempts| && AttemptAsPlanned(Perform(db, call, fault, now), a)
  {
    var db' := Perform(db, call, fault, now);
    var j := db.attempts[a].jobId;
    assert AttemptMoves(db.attempts[a], db'.attempts[a]) && JobMoves(db.jobs[j], db'.jobs[j]);
    if db.jobs[j].dryRunJobId.Some? { PlanStays(db, call, fault, now, j, db.attempts[a].validationId); }
  }

  // While a plan is written its job has no attempt yet.
  lemma NoAttemptYet(db: Db, w: Actor, a: AttemptId)
    requires DbInv(db) && w.Worker? && w.stage.SawValidation? && ActorFine(db, w) && a < |db.attempts|
    ensures db.attempts[a].jobId != w.job
  {
    assert AttemptFine(db, a);
  }

  lemma NewAttemptAsPlanned(sys: System, w: Actor, c: Choice, now: int, f: Effect, a: AttemptId)
    requires w.Worker? && DbInv(sys.db) && ActorFine(sys.db, w) && PlannedAsRecorded(sys.db, w) && f == StepWorker(sys, w, c, now)
    requires var db' := Perform(sys.db, f.call, f.fault, now);
      && DbInv(db') && Moves(sys.db, db') && OnlyBegunAreNew(sys.db, db', f.call)
      && |sys.db.attempts| <= a < |db'.attempts|
    ensures AttemptAsPlanned(Perform(sys.db, f.call, f.fault, now), a)
  {
    NewMeansBegun(sys.db, Perform(sys.db, f.call, f.fault, now), f.call, a);
    BeginsAsPlanned(sys, w, c, now);
    if w.task == ApprovedTask { BegunAsPlanned(sys, w, c, now); }
    NewAttemptFollows(sys.db, f.call, f.fault, now, w, a);
  }

  lemma NewAttemptFollows(db: Db, call: Option<Call>, fault: Fault, now: int, w: Actor, a: AttemptId)
    requires DbInv(db) && w.Worker? && ActorFine(db, w) && PlannedAsRecorded(db, w)
    requires call.Some? && call.value.CallBegin? && call.value.id == w.job
    requires w.task == ApprovedTask ==>
      w.stage.Planned? && call.value.purpose == if w.stage.quick.Some? then ForQuickDeploy(w.stage.quick.value) else ForDeploy
    requires var db' := Perform(db, call, fault, now); Moves(db, db') && |db.attempts| <= a < |db'.attempts|
    ensures AttemptAsPlanned(Perform(db, call, fault, now), a)
  {
    var db' := Perform(db, call, fault, now);
    BeganThis(db, call.value, now);
    assert JobMoves(db.jobs[w.job], db'.jobs[w.job]) && JobFine(db, w.job);
    if w.task == ApprovedTask { PlanStays(db, call, fault, now, w.job, w.stage.quick); }
  }

  // ---- Every event ----

  lemma ActKeepsOldAttempt(sys: System, i: nat, c: Choice, now: int, f: Effect, a: AttemptId)
    requires SysInv(sys) && PlansInv(sys) && i < |sys.actors| && f == EffectOf(sys, sys.actors[i], c, now)
    requires Moves(sys.db, Perform(sys.db, f.call, f.fault, now)) && a < |sys.db.attempts|
    ensures a < |Perform(sys.db, f.call, f.fault, now).attempts| && AttemptAsPlanned(Perform(sys.db, f.call, f.fault, now), a)
  {
    assert ActorFine(sys.db, sys.actors[i]) && AttemptAsPlanned(sys.db, a);
    NotPlannedFor(sys, sys.actors[i], c, now, a);
    OldAttemptAsPlanned(sys.db, f.call, f.fault, now, a);
  }

  lemma NewMeansBegun(db: Db, db': Db, call: Option<Call>, a: AttemptId)
    requires OnlyBegunAreNew(db, db', call) && |db.attempts| <= a < |db'.attempts|
    ensures call.Some? && call.value.CallBegin? && db'.attempts[a].jobId == call.value.id
  {
    var j := db'.attempts[a].jobId;
    assert forall b | |db.attempts| <= b < |db'.attempts| ::
      call.Some? && call.value.CallBegin? && db'.attempts[b].jobId == call.value.id;
    assert j == call.value.id;
  }

  // Only workers begin attempts.
  lemma BegunByWorker(sys: System, actor: Actor, c: Choice, now: int, f: Effect, db': Db, a: AttemptId)
    requires f == EffectOf(sys, actor, c, now) && OnlyBegunAreNew(sys.db, db', f.call) && |sys.db.attempts| <= a < |db'.attempts|
    ensures actor.Worker? && f == StepWorker(sys, actor, c, now)
  {
    NewMeansBegun(sys.db, db', f.call, a);
    if !actor.Worker? { OthersDoNotPlan(sys, actor, c, now); }
  }

  lemma ActKeepsAttempts(sys: System, i: nat, c: Choice, now: int, f: Effect, db': Db, a: AttemptId)
    requires SysInv(sys) && PlansInv(sys) && i < |sys.actors| && f == EffectOf(sys, sys.actors[i], c, now)
    requires db' == Perform(sys.db, f.call, f.fault, now) && a < |db'.attempts|
    requires DbInv(db') && Moves(sys.db, db') && OnlyBegunAreNew(sys.db, db', f.call)
    ensures AttemptAsPlanned(db', a)
  {
    if a < |sys.db.attempts| {
      ActKeepsOldAttempt(sys, i, c, now, f, a);
    } else {
      assert ActorFine(sys.db, sys.actors[i]) && PlannedAsRecorded(sys.db, sys.actors[i]);
      BegunByWorker(sys, sys.actors[i], c, now, f, db', a);
      NewAttemptAsPlanned(sys, sys.actors[i], c, now, f, a);
    }
  }

  // What is known of every step of the system.
  lemma StepFrame(sys: System, i: nat, c: Choice, now: int)
    requires SysInv(sys) && i < |sys.actors|
    ensures DbInv(sys.db) && ActorFine(sys.db, sys.actors[i])
    ensures var f := EffectOf(sys, sys.actors[i], c, now); var db' := Perform(sys.db, f.call, f.fault, now);
      DbInv(db') && Moves(sys.db, db') && OnlyBegunAreNew(sys.db, db', f.call)
  {
    EveryStepIsSound(sys, i, c, now);
  }

  // No plan is written for a job that has an attempt.
  lemma NotPlannedFor(sys: System, actor: Actor, c: Choice, now: int, a: AttemptId)
    requires DbInv(sys.db) && ActorFine(sys.db, actor) && a < |sys.db.attempts|
    ensures !PlansFor(EffectOf(sys, actor, c, now).call, sys.db.attempts[a].jobId)
  {
    if actor.Worker? && actor.stage.SawValidation? { NoAttemptYet(sys.db, actor, a); }
    if PlansFor(EffectOf(sys, actor, c, now).call, sys.db.attempts[a].jobId) {
      PlansAreTheWorkers(sys, actor, c, now, sys.db.attempts[a].jobId);
    }
  }

  lemma NextAsRecorded(sys: System, i: nat, c: Choice, now: int)
    requires SysInv(sys) && PlansInv(sys) && i < |sys.actors|
    ensures var f := EffectOf(sys, sys.actors[i], c, now); PlannedAsRecorded(Perform(sys.db, f.call, f.fault, now), f.next)
  {
    var w := sys.actors[i];
    var f := EffectOf(sys, w, c, now);
    assert ActorFine(sys.db, w) && PlannedAsRecorded(sys.db, w);
    if IsPlanned(f.next) {
      if !w.Worker? { OthersDoNotPlan(sys, w, c, now); }
      PlansOnVerdict(sys, w, c, now);
      if w.stage.SawValidation? {
        DecidingWritesPlan(sys, w, c, now);
      } else {
        StillPlanned(sys, w, c, now);
        OtherWorkersWriteNone(sys, w, c, now, w.job);
        PlanStays(sys.db, f.call, f.fault, now, w.job, w.stage.quick);
      }
    }
  }

  lemma OtherAsRecorded(sys: System, i: nat, c: Choice, now: int, k: nat)
    requires SysInv(sys) && PlansInv(sys) && i < |sys.actors| && k < |sys.actors| && k != i
    ensures var f := EffectOf(sys, sys.actors[i], c, now); PlannedAsRecorded(Perform(sys.db, f.call, f.fault, now), sys.actors[k])
  {
    var f, other := EffectOf(sys, sys.actors[i], c, now), sys.actors[k];
    assert PlannedAsRecorded(sys.db, other) && ActorFine(sys.db, sys.actors[i]);
    if IsPlanned(other) {
      assert InBodyOn(other, other.job);
      if PlansFor(f.call, other.job) { PlansAreTheWorkers(sys, sys.actors[i], c, now, other.job); }
      PlanStays(sys.db, f.call, f.fault, now, other.job, other.stage.quick);
    }
  }

  lemma ActKeepsPlans(sys: System, i: nat, c: Choice, now: int)
    requires SysInv(sys) && PlansInv(sys) && i < |sys.actors|
    ensures PlansInv(Do(sys, Act(i, c), now))
  {
    var f := EffectOf(sys, sys.actors[i], c, now);
    var db' := Perform(sys.db, f.call, f.fault, now);
    ActIsStep(sys, i, c, now);
    StepFrame(sys, i, c, now);
    forall a | 0 <= a < |db'.attempts| ensures AttemptAsPlanned(db', a) { ActKeepsAttempts(sys, i, c, now, f, db', a); }
    NextAsRecorded(sys, i, c, now);
    forall k | 0 <= k < |sys.actors| && k != i ensures PlannedAsRecorded(db', sys.actors[k]) { OtherAsRecorded(sys, i, c, now, k); }
  }

  lemma OtherEventsWriteNone(sys: System, e: Event, now: int, j: JobId)
    requires !e.Act? && j < |sys.db.jobs|
    ensures j < |Do(sys, e, now).db.jobs| && Do(sys, e, now).db.jobs[j] == sys.db.jobs[j]
  {
  }

  lemma EventKeepsPlans(sys: System, e: Event, now: int)
    requires SysInv(sys) && PlansInv(sys)
    ensures PlansInv(Do(sys, e, now))
  {
    if e.Act? {
      if e.actor < |sys.actors| { ActKeepsPlans(sys, e.actor, e.choice, now); }
    } else {
      var sys' := Do(sys, e, now);
      OtherEventsBeginNothing(sys, e, now);
      forall a | 0 <= a < |sys'.db.attempts| ensures AttemptAsPlanned(sys'.db, a) {
        assert AttemptAsPlanned(sys.db, a);
        OtherEventsWriteNone(sys, e, now, sys.db.attempts[a].jobId);
      }
      forall i | 0 <= i < |sys'.actors| ensures PlannedAsRecorded(sys'.db, sys'.actors[i]) {
        if IsPlanned(sys'.actors[i]) {
          assert PlannedAsRecorded(sys.db, sys.actors[i]);
          OtherEventsWriteNone(sys, e, now, sys.actors[i].job);
        }
      }
    }
  }

  lemma {:induction false} PlayKeepsPlans(events: seq<TimedEvent>)
    ensures PlansInv(Play(BOOT, events))
  {
    if events != [] {
      var last := |events| - 1;
      PlayKeepsPlans(events[..last]);
      BootIsFine();
      PlayKeeps(BOOT, events[..last]);
      EventKeepsPlans(Play(BOOT, events[..last]), events[last].event, events[last].now);
    }
  }

  // In every reached state the start command of an approved deployment is a Quick Deploy, and
  // names its validation, exactly as the row of its job says.
  lemma StartsFollowPlans(sys: System, k: nat)
    requires Reached(sys) && k < |sys.starts| && sys.starts[k].job < |sys.db.jobs|
    requires sys.db.jobs[sys.starts[k].job].dryRunJobId.Some?
    ensures var (s, job) := (sys.starts[k], sys.db.jobs[sys.starts[k].job]);
      && (s.operation == QuickDeploy <==> job.executionMode == Some(UseQuickDeploy))
      && (s.operation == Deploy <==> job.executionMode == Some(UseStandardDeploy))
      && s.operation != Validate && job.reusedValidationId == s.validationId
      && (s.validationId.Some? <==> s.operation == QuickDeploy)
  {
    var events :| Play(BOOT, events) == sys;
    PlayKeepsPlans(events);
    StartsMatchIntents(sys, k);
    Reachable(sys);
    assert StartFine(sys.db, sys.starts[k]) && AttemptAsPlanned(sys.db, sys.starts[k].attempt);
  }
}
