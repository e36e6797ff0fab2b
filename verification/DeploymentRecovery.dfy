// Recovery in every run of the program: while it lasts nobody starts anything, so a listed
// job that was queued has still submitted nothing when it is failed.
module DeploymentRecovery {
  import opened Options
  import opened DeploymentModel
  import opened DeploymentSteps
  import opened DeploymentRuns
  import opened DeploymentDiscipline
  import opened DeploymentProtocol
  import opened DeploymentSafety
  import opened DeploymentInvariant
  import opened DeploymentTheorems

  // A listed job that was queued is still queued or has been failed, without an attempt.
  ghost predicate Untouched(db: Db, j: JobId)
  {
    j < |db.jobs| && db.jobs[j].status in {Queued, Status.Failed} && db.jobs[j].activeAttempt.None?
  }

  ghost predicate ListFine(db: Db, list: seq<(JobId, Status)>)
  {
    forall k | 0 <= k < |list| :: list[k].0 < |db.jobs| && (list[k].1 == Queued ==> Untouched(db, list[k].0))
  }

  predicate Conclusive(actor: Actor)
  {
    actor.Reconciler? && actor.reconcileStep.Concluding? ==> Finished(actor.reconcileStep.next)
  }

  ghost predicate RecoveryInv(sys: System)
  {
    && (Recovering(sys.actors) ==> !Working(sys.actors))
    && (forall i | 0 <= i < |sys.actors| && sys.actors[i].Recoverer? :: ListFine(sys.db, sys.actors[i].list))
    && (forall i | 0 <= i < |sys.actors| :: Conclusive(sys.actors[i]))
  }

  // A call that neither begins an attempt nor sets a running status.
  predicate Calm(c: Call)
  {
    !c.CallBegin? && (c.CallTransition? ==> !Running(c.next))
  }

  lemma CalmKeepsUntouched(db: Db, c: Call, now: int, j: JobId)
    requires Untouched(db, j) && Calm(c)
    ensures Untouched(Apply(db, c, now), j)
  {
  }

  lemma CalmKeepsList(db: Db, call: Option<Call>, fault: Fault, now: int, list: seq<(JobId, Status)>)
    requires ListFine(db, list) && (call.Some? ==> Calm(call.value)) && |db.jobs| <= |Perform(db, call, fault, now).jobs|
    ensures ListFine(Perform(db, call, fault, now), list)
  {
    forall k | 0 <= k < |list| && list[k].1 == Queued ensures Untouched(Perform(db, call, fault, now), list[k].0) {
      if call.Some? { CalmKeepsUntouched(db, call.value, now, list[k].0); }
    }
  }

  // ---- What the actors of a recovering program do ----

  // Whoever is not a worker makes calm calls, becomes a worker only when nobody recovers, and
  // becomes a recoverer only by being one, with what is left of its list.
  ghost predicate CalmEffect(sys: System, actor: Actor, f: Effect)
  {
    && (f.call.Some? ==> Calm(f.call.value))
    && (f.next.Worker? ==> !Recovering(sys.actors))
    && (f.next.Recoverer? ==> actor.Recoverer? && (f.next.list == actor.list || (actor.list != [] && f.next.list == actor.list[1..])))
    && Conclusive(f.next)
  }

  lemma CompletersAreCalm(sys: System, m: Actor, c: Choice, now: int)
    requires m.Completer? && Finished(m.completion.target)
    ensures CalmEffect(sys, m, StepCompleter(sys, m, c, now))
  {
  }

  lemma ReconcilersAreCalm(sys: System, r: Actor, c: Choice, now: int)
    requires r.Reconciler? && Conclusive(r)
    ensures CalmEffect(sys, r, StepReconciler(sys, r, c, now))
  {
  }

  lemma OthersAreCalm(sys: System, actor: Actor, c: Choice, now: int)
    requires !actor.Worker? && !actor.Completer? && !actor.Reconciler?
    ensures CalmEffect(sys, actor, EffectOf(sys, actor, c, now))
  {
  }

  lemma NonWorkersAreCalm(sys: System, actor: Actor, c: Choice, now: int)
    requires !actor.Worker? && ActorFine(sys.db, actor) && Conclusive(actor)
    ensures CalmEffect(sys, actor, EffectOf(sys, actor, c, now))
  {
    if actor.Completer? { CompletersAreCalm(sys, actor, c, now); }
    else if actor.Reconciler? { ReconcilersAreCalm(sys, actor, c, now); }
    else { OthersAreCalm(sys, actor, c, now); }
  }

  predicate Submits(stage: Stage)
  {
    stage.Intended? || stage.Started? || stage.Returned? || stage.Ended? || stage.Stored? || stage.Failing?
  }

  lemma SubmittersDoNotRecover(sys: System, w: Actor, c: Choice, now: int)
    requires w.Worker? && Submits(w.stage)
    ensures var next := StepWorker(sys, w, c, now).next; !next.Recoverer? && !next.Reconciler?
  {
  }

  lemma WorkersDoNotRecover(sys: System, w: Actor, c: Choice, now: int)
    requires w.Worker?
    ensures var next := StepWorker(sys, w, c, now).next; !next.Recoverer? && !next.Reconciler?
  {
    if Submits(w.stage) { SubmittersDoNotRecover(sys, w, c, now); }
  }

  // ---- The invariant ----

  lemma ActKeepsRecovery(sys: System, i: nat, c: Choice, now: int)
    requires SysInv(sys) && RecoveryInv(sys) && i < |sys.actors|
    ensures RecoveryInv(Do(sys, Act(i, c), now))
  {
    var actor := sys.actors[i];
    var f := EffectOf(sys, actor, c, now);
    ActIsStep(sys, i, c, now);
    EveryStepIsSound(sys, i, c, now);
    assert ActorFine(sys.db, actor);
    if actor.Worker? {
      WorkersDoNotRecover(sys, actor, c, now);
      assert Working(sys.actors);
    } else {
      NonWorkersAreCalm(sys, actor, c, now);
    }
    EffectKeeps(sys, i, f, Perform(sys.db, f.call, f.fault, now), now);
  }

  lemma EffectKeeps(sys: System, i: nat, f: Effect, db': Db, now: int)
    requires RecoveryInv(sys) && i < |sys.actors| && db' == Perform(sys.db, f.call, f.fault, now) && |sys.db.jobs| <= |db'.jobs|
    requires if sys.actors[i].Worker? then Working(sys.actors) && !f.next.Recoverer? && !f.next.Reconciler?
             else CalmEffect(sys, sys.actors[i], f)
    ensures RecoveryInv(AfterStep(sys, i, f, db'))
  {
    var sys' := AfterStep(sys, i, f, db');
    NobodyStarts(sys, i, f, sys'.actors);
    forall k | 0 <= k < |sys'.actors| && sys'.actors[k].Recoverer? ensures ListFine(db', sys'.actors[k].list) {
      assert Recovering(sys.actors) by {
        assert sys.actors[if k == i then i else k].Recoverer?;
      }
      CalmKeepsList(sys.db, f.call, f.fault, now, sys.actors[k].list);
    }
  }

  lemma NobodyStarts(sys: System, i: nat, f: Effect, actors': seq<Actor>)
    requires RecoveryInv(sys) && i < |sys.actors| && actors' == sys.actors[i := f.next]
    requires if sys.actors[i].Worker? then Working(sys.actors) && !f.next.Recoverer?
             else (f.next.Worker? ==> !Recovering(sys.actors)) && (f.next.Recoverer? ==> sys.actors[i].Recoverer?)
    ensures Recovering(actors') ==> Recovering(sys.actors) && !Working(actors')
  {
    if Recovering(actors') {
      var k :| 0 <= k < |actors'| && actors'[k].Recoverer?;
      assert sys.actors[k].Recoverer?;
    }
  }

  lemma {:induction false} InterruptedFine(jobs: seq<Job>, from: nat, k: nat)
    requires k < |Interrupted(jobs, from)|
    ensures var (j, s) := Interrupted(jobs, from)[k];
      from <= j < from + |jobs| && jobs[j - from].status == s && (s == Queued || Running(s))
    decreases |jobs|
  {
    var first := Interrupted(jobs, from);
    var rest := Interrupted(jobs[1..], from + 1);
    if first == rest {
      InterruptedFine(jobs[1..], from + 1, k);
    } else if k > 0 {
      InterruptedFine(jobs[1..], from + 1, k - 1);
    }
  }

  lemma ListingIsFine(db: Db)
    requires DbInv(db)
    ensures ListFine(db, Interrupted(db.jobs, 0))
  {
    var list := Interrupted(db.jobs, 0);
    forall k | 0 <= k < |list| ensures list[k].0 < |db.jobs| && (list[k].1 == Queued ==> Untouched(db, list[k].0)) {
      InterruptedFine(db.jobs, 0, k);
      assert JobFine(db, list[k].0);
    }
  }

  // An actor joins: a worker only when nobody recovers, a recoverer only when nobody works.
  lemma JoinKeepsRecovery(sys: System, call: Option<Call>, fault: Fault, now: int, actor: Option<Actor>)
    requires RecoveryInv(sys) && (call.Some? ==> Calm(call.value))
    requires |sys.db.jobs| <= |Perform(sys.db, call, fault, now).jobs|
    requires actor.Some? ==>
      && Conclusive(actor.value) && (actor.value.Worker? ==> !Recovering(sys.actors))
      && (actor.value.Recoverer? ==> !Working(sys.actors) && call.None? && ListFine(sys.db, actor.value.list))
    ensures RecoveryInv(Join(sys, Perform(sys.db, call, fault, now), actor))
  {
    var db' := Perform(sys.db, call, fault, now);
    var sys' := Join(sys, db', actor);
    forall k | 0 <= k < |sys'.actors| && sys'.actors[k].Recoverer? ensures ListFine(db', sys'.actors[k].list) {
      if k < |sys.actors| { CalmKeepsList(sys.db, call, fault, now, sys.actors[k].list); }
    }
  }

  lemma CrashKeepsRecovery(sys: System, process: ProcessId)
    requires RecoveryInv(sys)
    ensures RecoveryInv(Do(sys, Crash(process), 0))
  {
    var actors' := Do(sys, Crash(process), 0).actors;
    assert forall i | 0 <= i < |actors'| :: actors'[i].Gone? || actors'[i] == sys.actors[i];
  }

  lemma RequestKeepsRecovery(sys: System, e: Event, now: int)
    requires SysInv(sys) && RecoveryInv(sys) && !e.Act? && !e.Crash? && !e.RequestDryRun? && !e.RequestDirect?
    ensures RecoveryInv(Do(sys, e, now))
  {
    ListingIsFine(sys.db);
    var sys' := Do(sys, e, now);
    if sys' != sys {
      assert |sys'.actors| == |sys.actors| + 1 && sys'.actors[..|sys.actors|] == sys.actors;
      var actor := sys'.actors[|sys.actors|];
      JoinKeepsRecovery(sys, None, NoFault, now, Some(actor));
      assert sys' == Join(sys, sys.db, Some(actor));
    }
  }

  lemma CreationKeepsRecovery(sys: System, e: Event, now: int)
    requires SysInv(sys) && RecoveryInv(sys) && (e.RequestDryRun? || e.RequestDirect?)
    ensures RecoveryInv(Do(sys, e, now))
  {
    CreatingKeeps(sys, e, now);
    match e
    case RequestDryRun(process, input, fault) =>
      var o := CreateDryRun(sys.db, input, now);
      JoinKeepsRecovery(sys, Some(CallCreateDryRun(input)), fault, now,
        if fault == NoFault && o.Committed? && o.value.created && !Recovering(sys.actors)
        then Some(Worker(process, o.value.id, DryRunTask, Waiting)) else None);
    case RequestDirect(process, input, confirmed, mayDeploy, fault) =>
      var o := CreateDirectDeployment(sys.db, input, confirmed, mayDeploy, now);
      JoinKeepsRecovery(sys, Some(CallCreateDirect(input, confirmed, mayDeploy)), fault, now,
        if fault == NoFault && o.Committed? && o.value.created && !Recovering(sys.actors)
        then Some(Worker(process, o.value.id, DirectTask, Waiting)) else None);
  }

  lemma {:induction false} PlayKeepsRecovery(events: seq<TimedEvent>)
    ensures RecoveryInv(Play(BOOT, events))
  {
    if events != [] {
      var last := |events| - 1;
      var sys, e := Play(BOOT, events[..last]), events[last].event;
      PlayKeepsRecovery(events[..last]);
      BootIsFine();
      PlayKeeps(BOOT, events[..last]);
      if e.Act? {
        if e.actor < |sys.actors| { ActKeepsRecovery(sys, e.actor, e.choice, events[last].now); }
      } else if e.Crash? {
        CrashKeepsRecovery(sys, e.process);
      } else if e.RequestDryRun? || e.RequestDirect? {
        CreationKeepsRecovery(sys, e, events[last].now);
      } else {
        RequestKeepsRecovery(sys, e, events[last].now);
      }
    }
  }

  // ---- Recovery fails only jobs that never began a submission ----

  lemma RecoveryWrites(sys: System, i: nat, c: Choice, now: int, j: JobId)
    requires i < |sys.actors| && sys.actors[i].Recoverer? && ListFine(sys.db, sys.actors[i].list) && j < |sys.db.jobs|
    ensures var f := StepRecoverer(sys, sys.actors[i], c, now); var db' := Perform(sys.db, f.call, f.fault, now);
      && db'.attempts == sys.db.attempts && j < |db'.jobs|
      && (db'.jobs[j].status == Status.Failed && sys.db.jobs[j].status != Status.Failed ==>
            sys.db.jobs[j].status == Queued && sys.db.jobs[j].activeAttempt.None?)
  {
  }

  lemma QueuedHasNoAttempt(db: Db, j: JobId)
    requires DbInv(db) && j < |db.jobs| && db.jobs[j].status == Queued
    ensures forall a | 0 <= a < |db.attempts| :: db.attempts[a].jobId != j
  {
    assert JobFine(db, j);
    forall a | 0 <= a < |db.attempts| ensures db.attempts[a].jobId != j { assert AttemptFine(db, a); }
  }

  // In every reached state, with any faults and whatever its list says by now: a step of
  // recovery fails a job only if it is still queued and has no attempt.
  lemma RecoveryFailsOnlyUnsubmitted(sys: System, i: nat, c: Choice, now: int, j: JobId)
    requires Reached(sys) && i < |sys.actors| && sys.actors[i].Recoverer? && j < |sys.db.jobs|
    ensures var db' := Do(sys, Act(i, c), now).db;
      && db'.attempts == sys.db.attempts && j < |db'.jobs|
      && (db'.jobs[j].status == Status.Failed && sys.db.jobs[j].status != Status.Failed ==>
            sys.db.jobs[j].status == Queued && forall a | 0 <= a < |db'.attempts| :: db'.attempts[a].jobId != j)
  {
    var events :| Play(BOOT, events) == sys;
    PlayKeepsRecovery(events);
    Reachable(sys);
    ActIsStep(sys, i, c, now);
    RecoveryWrites(sys, i, c, now, j);
    if sys.db.jobs[j].status == Queued { QueuedHasNoAttempt(sys.db, j); }
  }

  // While a recovery is under way no worker lives.
  lemma NobodyWorksDuringRecovery(sys: System)
    requires Reached(sys) && Recovering(sys.actors)
    ensures !Working(sys.actors)
  {
    var events :| Play(BOOT, events) == sys;
    PlayKeepsRecovery(events);
  }
}
