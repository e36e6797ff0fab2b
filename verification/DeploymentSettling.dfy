// What can always still be settled: from every reached state a pending result can be stored,
// a job that awaits reconciliation settled as Salesforce reports, even if its id was lost, and
// interrupted jobs recovered.
module DeploymentSettling {
  import opened Options
  import opened DeploymentModel
  import opened DeploymentSteps
  import opened DeploymentRuns
  import opened DeploymentDiscipline
  import opened DeploymentProtocol
  import opened DeploymentSafety
  import opened DeploymentTheorems
  import DeploymentRecovery
  import opened DeploymentReports
  import opened DeploymentProgress
  import opened DeploymentLiveness

  // ---- Pending results ----

  lemma PendingIsOpen(sys: System, process: ProcessId, j: JobId, now: int)
    requires Reached(sys) && (process, j) in sys.pending
    requires var c := sys.pending[(process, j)]; Transition(sys.db, j, c.target, c.details, now).Committed?
    ensures j < |sys.db.jobs| && !Finished(sys.db.jobs[j].status)
    ensures StillCurrent(sys.db, j, sys.pending[(process, j)].details)
  {
    Reachable(sys);
    PendingTarget(sys, process, j);
    CommittedIsCurrent(sys.db, j, sys.pending[(process, j)], now);
  }

  lemma PendingTarget(sys: System, process: ProcessId, j: JobId)
    requires SysInv(sys) && (process, j) in sys.pending
    ensures j < |sys.db.jobs| && sys.pending[(process, j)].target in {ApprovalPending, Status.Succeeded}
  {
    assert OwedFine(sys, (process, j));
  }

  lemma CommittedIsCurrent(db: Db, j: JobId, c: Completion, now: int)
    requires Transition(db, j, c.target, c.details, now).Committed? && c.target in {ApprovalPending, Status.Succeeded}
    ensures !Finished(db.jobs[j].status) && StillCurrent(db, j, c.details)
  {
  }

  lemma RetryStores(sys: System, middle: System, i: nat, m: Actor, now: int) returns (sys': System)
    requires Leads(sys, middle) && Completes(middle, i, m) && m.step == RetryChecking
    requires StillCurrent(middle.db, m.job, m.completion.details)
    requires Transition(middle.db, m.job, m.completion.target, m.completion.details, now).Committed?
    ensures Leads(sys, sys') && (m.process, m.job) !in sys'.pending
    ensures m.job < |sys'.db.jobs| && sys'.db.jobs[m.job].status == m.completion.target
  {
    RetryChecksAttempt(middle, i, m, now);
    LeadsOn(sys, middle, Act(i, Go(NoFault)), now);
    var writing := Do(middle, Act(i, Go(NoFault)), now);
    RetryWrites(writing, i, m.(step := RetryWriting), now);
    LeadsOn(sys, writing, Act(i, Go(NoFault)), now);
    sys' := Do(writing, Act(i, Go(NoFault)), now);
  }

  // From every reached state a pending result that the database would take can be stored and
  // forgotten.
  lemma PendingResultsCanBeStored(sys: System, process: ProcessId, j: JobId, now: int) returns (sys': System)
    requires Reached(sys) && (process, j) in sys.pending
    requires var c := sys.pending[(process, j)]; Transition(sys.db, j, c.target, c.details, now).Committed?
    ensures Leads(sys, sys') && (process, j) !in sys'.pending
    ensures j < |sys'.db.jobs| && sys'.db.jobs[j].status == sys.pending[(process, j)].target
  {
    PendingIsOpen(sys, process, j, now);
    var i, m := |sys.actors|, Completer(process, j, sys.pending[(process, j)], Retrying);
    LeadsHere(sys);
    RetryBegins(sys, process, j, now);
    LeadsOn(sys, sys, BeginRetry(process, j), now);
    var begun := Do(sys, BeginRetry(process, j), now);
    RetryChecksStatus(begun, i, m, now);
    LeadsOn(sys, begun, Act(i, Go(NoFault)), now);
    sys' := RetryStores(sys, Do(begun, Act(i, Go(NoFault)), now), i, m.(step := RetryChecking), now);
  }

  // ---- Reconciliation ----

  // What becomes of a job that awaits reconciliation once Salesforce is done with it.
  function Settled(job: Job, p: Progress): Status
  {
    if !EndedWell(p) then Status.Failed
    else if job.kind == Deployment then Status.Succeeded
    else if job.prepared then ApprovalPending else ReconcileRequired
  }

  // The job's own submission is known to Salesforce under a recorded id.
  ghost predicate Traceable(db: Db, j: JobId)
  {
    && j < |db.jobs| && db.jobs[j].status == ReconcileRequired && RecordedRemoteId(db.jobs[j], CurrentRow(db, j)).Some?
    && (db.jobs[j].activeAttempt.Some? ==>
          && db.jobs[j].activeAttempt.value < |db.attempts| && db.attempts[db.jobs[j].activeAttempt.value].jobId == j
          && (db.attempts[db.jobs[j].activeAttempt.value].operation == Validate <==> db.jobs[j].kind == DryRun))
  }

  lemma ReportIsRecorded(sys: System, i: nat, r: Actor, p: Progress, now: int) returns (sys': System)
    requires Reconciles(sys, i, r) && Traceable(sys.db, r.job) && r.seen == sys.db.jobs[r.job]
    requires r.reconcileStep == SawAttempt(CurrentMark(sys.db, r.job),
      CurrentRow(sys.db, r.job).Some? && CurrentRow(sys.db, r.job).value.operation == Validate)
    requires p.done && p.checkOnly == Some(r.seen.kind == DryRun)
    ensures sys' == Do(sys, Act(i, Observe(p, NoFault)), now) && r.job < |sys'.db.jobs|
    ensures sys'.db.jobs[r.job].status == ReconcileRequired && sys'.db.jobs[r.job].kind == r.seen.kind
    ensures if Settled(r.seen, p) == ReconcileRequired then i < |sys'.actors| && sys'.actors[i] == Gone
      else Reconciles(sys', i, r.(reconcileStep := Concluding(Settled(r.seen, p))))
  {
    var mark := CurrentMark(sys.db, r.job);
    ReportAcceptedExactly(sys.db, r.job, mark, p, now);
    ReportRecordsExactly(sys.db, r.job, mark, p, now);
    ReconciliationFollowsReport(sys, r, p, NoFault, now);
    ReconcilerHears(sys, i, r, p, now);
    sys' := Do(sys, Act(i, Observe(p, NoFault)), now);
  }

  lemma ReportSettles(sys: System, middle: System, i: nat, r: Actor, p: Progress, now: int) returns (sys': System)
    requires Leads(sys, middle) && Reconciles(middle, i, r) && r.reconcileStep == SawJob
    requires Traceable(middle.db, r.job) && r.seen == middle.db.jobs[r.job]
    requires p.done && p.checkOnly == Some(r.seen.kind == DryRun)
    ensures Leads(sys, sys') && r.job < |sys'.db.jobs| && sys'.db.jobs[r.job].status == Settled(r.seen, p)
  {
    ReconcilerReads(middle, i, r, now);
    LeadsOn(sys, middle, Act(i, Go(NoFault)), now);
    var read := Do(middle, Act(i, Go(NoFault)), now);
    var heard := ReportIsRecorded(read, i, read.actors[i], p, now);
    LeadsOn(sys, read, Act(i, Observe(p, NoFault)), now);
    if Settled(r.seen, p) == ReconcileRequired {
      sys' := heard;
    } else {
      ReconcilerConcludes(heard, i, heard.actors[i], now);
      LeadsOn(sys, heard, Act(i, Go(NoFault)), now);
      sys' := Do(heard, Act(i, Go(NoFault)), now);
    }
  }

  lemma TracedWhenReached(sys: System, j: JobId)
    requires Reached(sys) && j < |sys.db.jobs| && sys.db.jobs[j].status == ReconcileRequired
    requires RecordedRemoteId(sys.db.jobs[j], CurrentRow(sys.db, j)).Some?
    ensures Traceable(sys.db, j)
  {
    Reachable(sys);
    assert JobFine(sys.db, j);
    if sys.db.jobs[j].activeAttempt.Some? { assert AttemptSys(sys.db, sys.db.jobs[j].activeAttempt.value); }
  }

  // From every reached state a job that awaits reconciliation under a known remote id can be
  // settled as Salesforce reports; only an unprepared dry run stays where it is.
  lemma ReconciledAsReported(sys: System, process: ProcessId, j: JobId, p: Progress, now: int) returns (sys': System)
    requires Reached(sys) && j < |sys.db.jobs| && sys.db.jobs[j].status == ReconcileRequired
    requires RecordedRemoteId(sys.db.jobs[j], CurrentRow(sys.db, j)).Some?
    requires p.done && p.checkOnly == Some(sys.db.jobs[j].kind == DryRun)
    ensures Leads(sys, sys') && j < |sys'.db.jobs| && sys'.db.jobs[j].status == Settled(sys.db.jobs[j], p)
  {
    TracedWhenReached(sys, j);
    LeadsHere(sys);
    ReconciliationBegins(sys, process, j, now);
    LeadsOn(sys, sys, RequestReconcile(process, j), now);
    var begun := Do(sys, RequestReconcile(process, j), now);
    sys' := ReportSettles(sys, begun, |sys.actors|, begun.actors[|sys.actors|], p, now);
  }

  // ---- A submission whose id was lost ----

  lemma BoundIsTraceable(db: Db, id: JobId, a: AttemptId, operation: Operation, remoteId: string, now: int)
    requires DbInv(db) && DbSys(db) && Bind(db, id, a, operation, remoteId, now).Committed?
    ensures var db' := Bind(db, id, a, operation, remoteId, now).db;
      Traceable(db', id) && db'.jobs[id].kind == db.jobs[id].kind && db'.jobs[id].prepared == db.jobs[id].prepared
  {
    assert JobFine(db, id) && AttemptSys(db, a);
  }

  // If the id was never recorded, an administrator can name it, unless it is in use elsewhere,
  // and then the job can be settled as Salesforce reports.
  lemma BoundAndReconciled(sys: System, process: ProcessId, j: JobId, remoteId: string, p: Progress, now: int)
    returns (sys': System)
    requires Reached(sys) && CurrentMark(sys.db, j).Some? && p.done && p.checkOnly == Some(sys.db.jobs[j].kind == DryRun)
    requires var a := CurrentMark(sys.db, j).value.id;
      Bind(sys.db, j, a, sys.db.attempts[a].operation, remoteId, now).Committed?
    ensures Leads(sys, sys') && j < |sys'.db.jobs| && sys'.db.jobs[j].status == Settled(sys.db.jobs[j], p)
  {
    Reachable(sys);
    var i, a := |sys.actors|, CurrentMark(sys.db, j).value.id;
    var operation := sys.db.attempts[a].operation;
    BoundIsTraceable(sys.db, j, a, operation, remoteId, now);
    LeadsHere(sys);
    BindingBegins(sys, process, j, operation, remoteId, now);
    LeadsOn(sys, sys, RequestBind(process, j, operation, remoteId), now);
    var begun := Do(sys, RequestBind(process, j, operation, remoteId), now);
    Binds(begun, i, begun.actors[i], now);
    LeadsOn(sys, begun, Act(i, Go(NoFault)), now);
    var bound := Do(begun, Act(i, Go(NoFault)), now);
    BoundReconciles(bound, i, bound.actors[i], now);
    LeadsOn(sys, bound, Act(i, Go(NoFault)), now);
    var reading := Do(bound, Act(i, Go(NoFault)), now);
    sys' := ReportSettles(sys, reading, i, reading.actors[i], p, now);
  }

  // ---- Recovery ----

  // The list holds interrupted jobs as they are, each once, and no other job is interrupted.
  ghost predicate Accurate(db: Db, list: seq<(JobId, Status)>)
  {
    && (forall k | 0 <= k < |list| :: list[k].0 < |db.jobs| && db.jobs[list[k].0].status == list[k].1
                                        && (list[k].1 == Queued || Running(list[k].1)))
    && (forall k, l | 0 <= k < l < |list| :: list[k].0 < list[l].0)
    && (forall j | 0 <= j < |db.jobs| && (db.jobs[j].status == Queued || Running(db.jobs[j].status)) :: Listed(list, j))
  }

  ghost predicate Listed(list: seq<(JobId, Status)>, j: JobId)
  {
    exists k :: 0 <= k < |list| && list[k].0 == j
  }

  function HeadEntry(jobs: seq<Job>, from: nat): seq<(JobId, Status)>
    requires jobs != []
  {
    if jobs[0].status == Queued || Running(jobs[0].status) then [(from, jobs[0].status)] else []
  }

  lemma {:induction false} ListIncreases(jobs: seq<Job>, from: nat, k: nat, l: nat)
    requires k < l < |Interrupted(jobs, from)|
    ensures Interrupted(jobs, from)[k].0 < Interrupted(jobs, from)[l].0
    decreases |jobs|
  {
    var head, rest := HeadEntry(jobs, from), Interrupted(jobs[1..], from + 1);
    assert Interrupted(jobs, from) == head + rest;
    DeploymentRecovery.InterruptedFine(jobs[1..], from + 1, l - |head|);
    if k >= |head| { ListIncreases(jobs[1..], from + 1, k - |head|, l - |head|); }
  }

  lemma {:induction false} ListIsComplete(jobs: seq<Job>, from: nat, j: nat)
    requires j < |jobs| && (jobs[j].status == Queued || Running(jobs[j].status))
    ensures Listed(Interrupted(jobs, from), from + j)
    decreases |jobs|
  {
    var head, rest := HeadEntry(jobs, from), Interrupted(jobs[1..], from + 1);
    assert Interrupted(jobs, from) == head + rest;
    if j == 0 {
      assert Interrupted(jobs, from)[0].0 == from;
    } else {
      ListIsComplete(jobs[1..], from + 1, j - 1);
      var k :| 0 <= k < |rest| && rest[k].0 == from + j;
      assert Interrupted(jobs, from)[|head| + k] == rest[k];
    }
  }

  lemma InterruptedIsAccurate(db: Db)
    ensures Accurate(db, Interrupted(db.jobs, 0))
  {
    var list := Interrupted(db.jobs, 0);
    forall k | 0 <= k < |list|
      ensures list[k].0 < |db.jobs| && db.jobs[list[k].0].status == list[k].1 && (list[k].1 == Queued || Running(list[k].1))
    {
      DeploymentRecovery.InterruptedFine(db.jobs, 0, k);
    }
    forall k, l | 0 <= k < l < |list| ensures list[k].0 < list[l].0 { ListIncreases(db.jobs, 0, k, l); }
    forall j | 0 <= j < |db.jobs| && (db.jobs[j].status == Queued || Running(db.jobs[j].status)) ensures Listed(list, j) {
      ListIsComplete(db.jobs, 0, j);
    }
  }

  lemma HeadRecovered(db: Db, db': Db, list: seq<(JobId, Status)>)
    requires Accurate(db, list) && list != [] && |db'.jobs| == |db.jobs|
    requires db'.jobs[list[0].0].status in {Status.Failed, ReconcileRequired}
    requires forall k | 0 <= k < |db.jobs| && k != list[0].0 :: db'.jobs[k] == db.jobs[k]
    ensures Accurate(db', list[1..])
  {
    forall j | 0 <= j < |db'.jobs| && (db'.jobs[j].status == Queued || Running(db'.jobs[j].status)) ensures Listed(list[1..], j) {
      assert Listed(list, j);
      var k :| 0 <= k < |list| && list[k].0 == j;
      assert list[1..][k - 1].0 == j;
    }
  }

  lemma {:induction false} ListIsRecovered(sys: System, middle: System, i: nat, r: Actor, now: int) returns (sys': System)
    requires Leads(sys, middle) && i < |middle.actors| && middle.actors[i] == r && r.Recoverer? && Accurate(middle.db, r.list)
    ensures Leads(sys, sys') && |sys'.db.jobs| == |middle.db.jobs| && sys'.db.attempts == middle.db.attempts
    ensures forall j | 0 <= j < |middle.db.jobs| ::
      sys'.db.jobs[j].status == (if middle.db.jobs[j].status == Queued then Status.Failed
                                 else if Running(middle.db.jobs[j].status) then ReconcileRequired else middle.db.jobs[j].status)
    decreases |r.list|
  {
    if r.list == [] {
      sys' := middle;
    } else {
      Recovers(middle, i, r, now);
      LeadsOn(sys, middle, Act(i, Go(NoFault)), now);
      var next := Do(middle, Act(i, Go(NoFault)), now);
      HeadRecovered(middle.db, next.db, r.list);
      sys' := ListIsRecovered(sys, next, i, r.(list := r.list[1..]), now);
    }
  }

  // From every reached state in which no worker lives, recovery can be carried through: every
  // queued job is failed, every running one left to reconciliation, and nothing else changes
  // its status.
  lemma RecoveryCanFinish(sys: System, process: ProcessId, now: int) returns (sys': System)
    requires !Working(sys.actors)
    ensures Leads(sys, sys') && |sys'.db.jobs| == |sys.db.jobs| && sys'.db.attempts == sys.db.attempts
    ensures forall j | 0 <= j < |sys.db.jobs| ::
      sys'.db.jobs[j].status == (if sys.db.jobs[j].status == Queued then Status.Failed
                                 else if Running(sys.db.jobs[j].status) then ReconcileRequired else sys.db.jobs[j].status)
  {
    LeadsHere(sys);
    RecoveryBegins(sys, process, now);
    LeadsOn(sys, sys, BeginRecovery(process), now);
    InterruptedIsAccurate(sys.db);
    var begun := Do(sys, BeginRecovery(process), now);
    sys' := ListIsRecovered(sys, begun, |sys.actors|, begun.actors[|sys.actors|], now);
  }
}
