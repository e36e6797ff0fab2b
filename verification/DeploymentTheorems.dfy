// What the deployment protocol guarantees in every run of every set of processes, with
// lost writes, lost answers, repeated requests, crashes and recoveries.
module DeploymentTheorems {
  import opened Options
  import opened DeploymentModel
  import opened DeploymentSteps
  import opened DeploymentRuns
  import opened DeploymentDiscipline
  import opened DeploymentProtocol
  import opened DeploymentSafety
  import opened DeploymentInvariant

  // ---- Refinement: a run of the processes is a run of repository calls ----

  lemma EventIsCall(sys: System, e: Event, now: int) returns (call: Option<Call>, fault: Fault)
    ensures Do(sys, e, now).db == Perform(sys.db, call, fault, now)
  {
    call, fault := None, NoFault;
    if e.Act? {
      if e.actor < |sys.actors| {
        var f := EffectOf(sys, sys.actors[e.actor], e.choice, now);
        ActIsStep(sys, e.actor, e.choice, now);
        call, fault := f.call, f.fault;
      }
    } else if e.RequestDryRun? {
      call, fault := Some(CallCreateDryRun(e.input)), e.fault;
    } else if e.RequestDirect? {
      call, fault := Some(CallCreateDirect(e.input, e.confirmed, e.mayDeploy)), e.fault;
    }
  }

  lemma {:induction false} PlayIsRun(events: seq<TimedEvent>) returns (calls: seq<TimedCall>)
    ensures Play(BOOT, events).db == Run(EMPTY, calls)
  {
    if events == [] {
      calls := [];
    } else {
      var last := |events| - 1;
      var before := Play(BOOT, events[..last]);
      var earlier := PlayIsRun(events[..last]);
      var call, fault := EventIsCall(before, events[last].event, events[last].now);
      calls := earlier;
      if call.Some? && fault != WriteLost {
        calls := earlier + [At(events[last].now, call.value)];
        assert calls[..|calls| - 1] == earlier;
      }
    }
  }

  lemma Reachable(sys: System)
    requires Reached(sys)
    ensures SysInv(sys)
  {
    var events :| Play(BOOT, events) == sys;
    BootIsFine();
    PlayKeeps(BOOT, events);
  }

  // Hence what the repositories guarantee to all callers holds of the program.
  lemma ReachedByRepositories(sys: System)
    requires Reached(sys)
    ensures ReachedDb(sys.db)
  {
    var events :| Play(BOOT, events) == sys;
    var calls := PlayIsRun(events);
  }

  // ---- At most one real deployment ----

  // A task body is entered at most once per job, over all processes.
  lemma BodiesRunOnce(sys: System, k: nat, l: nat)
    requires Reached(sys)
    requires k < |sys.bodies| && l < |sys.bodies|
    requires sys.bodies[k] == sys.bodies[l]
    ensures k == l
  {
    Reachable(sys);
  }

  lemma OneAttempt(db: Db, a: AttemptId, b: AttemptId)
    requires DbInv(db) && DbSys(db) && a < |db.attempts| && b < |db.attempts| && db.attempts[a].jobId == db.attempts[b].jobId
    ensures a == b
  {
    assert AttemptSys(db, a) && AttemptSys(db, b);
    assert a >= b || PairFine(db, a, b);
    assert b >= a || PairFine(db, b, a);
  }

  // At most one start command is ever issued for a job. The repositories alone would allow
  // a validation and then a deploy; the tasks of the program never use that.
  lemma StartedAtMostOnce(sys: System, k: nat, l: nat)
    requires Reached(sys)
    requires k < |sys.starts| && l < |sys.starts|
    requires sys.starts[k].job == sys.starts[l].job
    ensures k == l
  {
    Reachable(sys);
    assert StartFine(sys.db, sys.starts[k]) && StartFine(sys.db, sys.starts[l]);
    OneAttempt(sys.db, sys.starts[k].attempt, sys.starts[l].attempt);
  }

  // Every start command belongs to a stored intent, of a validation exactly for a dry run.
  lemma StartsMatchIntents(sys: System, k: nat)
    requires Reached(sys)
    requires k < |sys.starts|
    ensures var s := sys.starts[k];
      && s.attempt < |sys.db.attempts| && s.job < |sys.db.jobs|
      && sys.db.attempts[s.attempt].jobId == s.job && sys.db.attempts[s.attempt].operation == s.operation
      && sys.db.jobs[s.job].activeAttempt == Some(s.attempt)
      && (s.operation == Validate <==> sys.db.jobs[s.job].kind == DryRun)
  {
    Reachable(sys);
    var s := sys.starts[k];
    assert StartFine(sys.db, s) && AttemptFine(sys.db, s.attempt) && AttemptSys(sys.db, s.attempt) && JobFine(sys.db, s.job);
    OneAttempt(sys.db, s.attempt, sys.db.jobs[s.job].activeAttempt.value);
  }

  // ---- Approved deployments deploy what was approved ----

  lemma ApprovedJobAndDryRun(db: Db, j: JobId)
    requires DbInv(db) && DbSys(db) && j < |db.jobs| && db.jobs[j].dryRunJobId.Some?
    ensures var d := db.jobs[j].dryRunJobId.value;
      && d < |db.jobs| && db.jobs[d].kind == DryRun && db.jobs[d].status == ApprovalPending
      && db.jobs[d].prepared && db.jobs[d].payloadDigestVersion == 2 && db.jobs[d].targetIdentity.Some?
      && db.jobs[j].payloadChecksum == db.jobs[d].payloadChecksum && db.jobs[j].testPlan == db.jobs[d].testPlan
      && db.jobs[j].targetIdentity == db.jobs[d].targetIdentity
  {
    ApprovedDryRunIsClosed(db, j);
    assert RowSys(db, j);
  }

  // In every reachable state the submission of an approved deployment carries the checksum
  // and the org of its approval and of its prepared dry run.
  lemma ApprovedPayloadIsDeployed(sys: System, p: nat, a: AttemptId)
    requires Reached(sys)
    requires var db := sys.db;
      p < |db.approvals| && a < |db.attempts| && db.attempts[a].jobId == db.approvals[p].deployJobId
    ensures var db := sys.db; var d := db.approvals[p].dryRunJobId;
      && d < |db.jobs| && db.jobs[d].prepared && db.jobs[d].payloadDigestVersion == 2
      && db.attempts[a].payloadChecksum == db.approvals[p].payloadChecksum == db.jobs[d].payloadChecksum
      && db.attempts[a].digestVersion == 2 && Some(db.attempts[a].targetIdentity) == db.jobs[d].targetIdentity
      && db.attempts[a].approvalJobId == Some(d)
  {
    Reachable(sys);
    var db := sys.db;
    assert ApprovalFine(db, p) && AttemptFine(db, a) && AttemptSys(db, a);
    var j := db.attempts[a].jobId;
    ApprovedJobAndDryRun(db, j);
    assert JobFine(db, j) && RowSys(db, j);
    OneAttempt(db, a, db.jobs[j].activeAttempt.value);
  }

  // A Quick Deploy start command names the validation its own dry run tracked, which ended
  // in success for the same payload.
  lemma QuickDeployReusesOwnValidation(sys: System, k: nat)
    requires Reached(sys)
    requires k < |sys.starts| && sys.starts[k].operation == QuickDeploy
    ensures var s := sys.starts[k];
      && s.job < |sys.db.jobs| && s.validationId.Some? && QuickBacked(sys.db, s.job, s.validationId.value)
      && s.attempt < |sys.db.attempts|
      && sys.db.attempts[s.attempt].payloadChecksum == sys.db.jobs[sys.db.jobs[s.job].dryRunJobId.value].payloadChecksum
  {
    Reachable(sys);
    var s := sys.starts[k];
    StartsMatchIntents(sys, k);
    assert StartFine(sys.db, s) && AttemptSys(sys.db, s.attempt) && RowSys(sys.db, s.job);
  }

  // ---- Success is backed by the right kind of work ----

  lemma StatusesAreBacked(sys: System, j: JobId)
    requires Reached(sys)
    requires j < |sys.db.jobs|
    ensures var job := sys.db.jobs[j];
      && (job.status == Status.Succeeded ==> job.kind == Deployment && ActiveIs(sys.db, j, false))
      && (job.status == ApprovalPending ==> job.kind == DryRun && ActiveIs(sys.db, j, true))
      && job.status != ValidatedPendingExecution
  {
    Reachable(sys);
    var db := sys.db;
    assert JobFine(db, j) && RowSys(db, j);
    if db.jobs[j].activeAttempt.Some? { assert AttemptSys(db, db.jobs[j].activeAttempt.value); }
  }

  // The job tracks no attempt, or one of the given sort.
  ghost predicate ActiveIs(db: Db, j: JobId, validation: bool)
    requires j < |db.jobs|
  {
    var active := db.jobs[j].activeAttempt;
    active.Some? ==>
      && active.value < |db.attempts| && db.attempts[active.value].jobId == j
      && (db.attempts[active.value].operation == Validate <==> validation)
  }

  // Reconciliation is about to approve a dry run only if it is prepared.
  lemma ReconciliationApprovesPrepared(sys: System, i: nat)
    requires Reached(sys)
    requires i < |sys.actors| && sys.actors[i].Reconciler? && sys.actors[i].reconcileStep == Concluding(ApprovalPending)
    ensures sys.actors[i].job < |sys.db.jobs| && sys.db.jobs[sys.actors[i].job].prepared
  {
    Reachable(sys);
    assert ActorFine(sys.db, sys.actors[i]);
  }

  // A submission is in doubt exactly while the id Salesforce gave it is unknown.
  lemma InDoubtExactlyWithoutId(sys: System, a: AttemptId)
    requires Reached(sys)
    requires a < |sys.db.attempts|
    ensures var attempt := sys.db.attempts[a]; attempt.state == Submitting <==> OwnId(attempt).None?
  {
    Reachable(sys);
    assert AttemptSys(sys.db, a);
  }

  // ---- Frozen evidence ----

  // Once a job is approval pending, succeeded or failed, neither its row nor any of its
  // attempts changes again, whatever the processes do.
  lemma EvidenceIsFrozen(sys: System, sys': System, j: JobId)
    requires Reached(sys) && Leads(sys, sys') && j < |sys.db.jobs| && Closed(sys.db.jobs[j].status)
    ensures j < |sys'.db.jobs| && sys'.db.jobs[j] == sys.db.jobs[j]
    ensures |sys.db.attempts| <= |sys'.db.attempts|
    ensures forall a | 0 <= a < |sys'.db.attempts| && sys'.db.attempts[a].jobId == j ::
      a < |sys.db.attempts| && sys'.db.attempts[a] == sys.db.attempts[a]
  {
    Reachable(sys);
    LaterIsKept(sys, sys');
    var db, db' := sys.db, sys'.db;
    ClosedRowStays(db, db', j);
    forall a | 0 <= a < |db'.attempts| && db'.attempts[a].jobId == j ensures a < |db.attempts| && db'.attempts[a] == db.attempts[a] {
      NoNewAttempt(db, db', j, a);
    }
  }

  lemma LaterIsKept(sys: System, sys': System)
    requires SysInv(sys) && Leads(sys, sys')
    ensures SysInv(sys') && SysKeeps(sys.db, sys'.db)
  {
    var events :| Play(sys, events) == sys';
    PlayKeeps(sys, events);
  }

  // ---- No confirmed result is lost ----

  // After complete() was called, as long as its process lives: the first write is still to
  // be made, or the result is pending, or the job has finished, or its attempt moved on.
  lemma ResultsAreNotLost(sys: System, key: (ProcessId, JobId))
    requires Reached(sys)
    requires key in sys.owed
    ensures key.1 < |sys.db.jobs| && NotLost(sys, key)
    ensures key in sys.pending ==> sys.pending[key] == sys.owed[key]
  {
    Reachable(sys);
    assert OwedFine(sys, key);
  }

  // A process with nothing pending and no first write under way owes nothing: flush() may
  // return.
  lemma FlushedOwesNothing(sys: System, process: ProcessId)
    requires Reached(sys)
    requires forall key | key in sys.pending :: key.0 != process
    requires forall i | 0 <= i < |sys.actors| ::
      !(sys.actors[i].Completer? && sys.actors[i].process == process && sys.actors[i].step == Trying)
    ensures forall key | key in sys.owed && key.0 == process ::
        key.1 < |sys.db.jobs|
        && (Finished(sys.db.jobs[key.1].status) || !StillCurrent(sys.db, key.1, sys.owed[key].details))
  {
    forall key | key in sys.owed && key.0 == process
      ensures key.1 < |sys.db.jobs|
      ensures Finished(sys.db.jobs[key.1].status) || !StillCurrent(sys.db, key.1, sys.owed[key].details)
    {
      ResultsAreNotLost(sys, key);
    }
  }

  // Completing and retrying never submit anything: no step of theirs issues a start command,
  // stores an intent or enters a task body.
  lemma CompletionNeverSubmits(sys: System, i: nat, c: Choice, now: int)
    requires i < |sys.actors| && sys.actors[i].Completer?
    ensures var sys' := Do(sys, Act(i, c), now);
      && sys'.starts == sys.starts && sys'.bodies == sys.bodies && sys'.db.attempts == sys.db.attempts
      && |sys'.db.jobs| == |sys.db.jobs| && |sys'.actors| == |sys.actors| && !sys'.actors[i].Worker?
  {
    var f := StepCompleter(sys, sys.actors[i], c, now);
    ActIsStep(sys, i, c, now);
    CompleterWrites(sys, sys.actors[i], c, now);
    TransitionOnlyWritesJob(sys.db, f.call, f.fault, now);
  }

  lemma CompleterWrites(sys: System, m: Actor, c: Choice, now: int)
    requires m.Completer?
    ensures var f := StepCompleter(sys, m, c, now);
      && (f.call.Some? ==> f.call.value.CallTransition?) && !f.next.Worker?
      && f.starts == sys.starts && f.bodies == sys.bodies
  {
  }

  lemma TransitionOnlyWritesJob(db: Db, call: Option<Call>, fault: Fault, now: int)
    requires call.Some? ==> call.value.CallTransition?
    ensures Perform(db, call, fault, now).attempts == db.attempts && |Perform(db, call, fault, now).jobs| == |db.jobs|
  {
  }
}
