// When a finished dry run is prepared: exactly if the write of its artifacts committed. A
// failed write is only a warning, so the job may wait for an approval it can never get.
module DeploymentArtifacts {
  import opened Options
  import opened DeploymentModel
  import opened DeploymentSteps
  import opened DeploymentRuns
  import opened DeploymentProtocol
  import opened DeploymentInvariant

  predicate StoresFor(db: Db, c: Call, now: int, j: JobId)
  {
    c.CallDryRunArtifacts? && c.id == j && RecordDryRunArtifacts(db, j, c.artifacts, now).Committed?
  }

  // The event is a step whose write of the artifacts of dry run `j` commits.
  predicate Stores(sys: System, e: Event, now: int, j: JobId)
  {
    && e.Act? && e.actor < |sys.actors|
    && var f := EffectOf(sys, sys.actors[e.actor], e.choice, now);
       f.call.Some? && f.fault != WriteLost && StoresFor(sys.db, f.call.value, now, j)
  }

  // Such an event happened along the run.
  predicate StoredAlong(events: seq<TimedEvent>, j: JobId)
  {
    events != []
    && var last := |events| - 1;
       (StoredAlong(events[..last], j) || Stores(Play(BOOT, events[..last]), events[last].event, events[last].now, j))
  }

  lemma PerformPrepares(db: Db, call: Option<Call>, fault: Fault, now: int, j: JobId)
    requires j < |Perform(db, call, fault, now).jobs| && Perform(db, call, fault, now).jobs[j].kind == DryRun
    requires j < |db.jobs| ==> db.jobs[j].kind == DryRun
    ensures Perform(db, call, fault, now).jobs[j].prepared
      <==> (j < |db.jobs| && db.jobs[j].prepared)
           || (call.Some? && fault != WriteLost && StoresFor(db, call.value, now, j))
  {
    if call.Some? && fault != WriteLost { PreparedExactly(db, call.value, now, j); }
  }

  lemma EventPrepares(sys: System, e: Event, now: int, j: JobId)
    requires j < |Do(sys, e, now).db.jobs| && Do(sys, e, now).db.jobs[j].kind == DryRun
    requires j < |sys.db.jobs| ==> sys.db.jobs[j].kind == DryRun
    ensures Do(sys, e, now).db.jobs[j].prepared <==> (j < |sys.db.jobs| && sys.db.jobs[j].prepared) || Stores(sys, e, now, j)
  {
    if e.Act? && e.actor < |sys.actors| {
      var f := EffectOf(sys, sys.actors[e.actor], e.choice, now);
      ActIsStep(sys, e.actor, e.choice, now);
      PerformPrepares(sys.db, f.call, f.fault, now, j);
    } else if e.RequestDryRun? {
      PerformPrepares(sys.db, Some(CallCreateDryRun(e.input)), e.fault, now, j);
    } else if e.RequestDirect? {
      PerformPrepares(sys.db, Some(CallCreateDirect(e.input, e.confirmed, e.mayDeploy)), e.fault, now, j);
    }
  }

  // In every run, a dry run is prepared exactly if a write of its artifacts committed.
  lemma {:induction false} PreparedExactlyIfStored(events: seq<TimedEvent>, j: JobId)
    requires j < |Play(BOOT, events).db.jobs| && Play(BOOT, events).db.jobs[j].kind == DryRun
    ensures Play(BOOT, events).db.jobs[j].prepared <==> StoredAlong(events, j)
  {
    if events != [] {
      var last := |events| - 1;
      var sys := Play(BOOT, events[..last]);
      BootIsFine();
      PlayKeeps(BOOT, events[..last]);
      EventKeeps(sys, events[last].event, events[last].now);
      if j < |sys.db.jobs| {
        assert JobMoves(sys.db.jobs[j], Play(BOOT, events).db.jobs[j]);
        PreparedExactlyIfStored(events[..last], j);
      } else {
        NotYetStored(events[..last], j);
      }
      EventPrepares(sys, events[last].event, events[last].now, j);
    }
  }

  // No artifacts are stored for a job that does not exist.
  lemma {:induction false} NotYetStored(events: seq<TimedEvent>, j: JobId)
    requires |Play(BOOT, events).db.jobs| <= j
    ensures !StoredAlong(events, j)
  {
    if events != [] {
      var last := |events| - 1;
      var sys := Play(BOOT, events[..last]);
      BootIsFine();
      PlayKeeps(BOOT, events[..last]);
      EventKeeps(sys, events[last].event, events[last].now);
      NotYetStored(events[..last], j);
    }
  }

  // If a dry run waits for approval and no write of its artifacts committed, every request to
  // approve it is refused from then on, whoever calls the repositories.
  lemma ApprovalNeedsArtifacts(events: seq<TimedEvent>, j: JobId, db': Db, request: ApprovalRequest, read: Job, now: int)
    requires var db := Play(BOOT, events).db;
      j < |db.jobs| && db.jobs[j].kind == DryRun && db.jobs[j].status == ApprovalPending && LeadsTo(db, db')
    requires !StoredAlong(events, j) && request.dryRunJobId == j
    ensures ApproveAndQueue(db', request, read, now).Refused?
  {
    BootIsFine();
    PlayKeeps(BOOT, events);
    PreparedExactlyIfStored(events, j);
    UnpreparedIsNeverApproved(Play(BOOT, events).db, db', request, read, now);
  }
}
