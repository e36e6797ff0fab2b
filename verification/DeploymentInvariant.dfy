// Confirmed results are not lost, and the system invariant holds along every run.
module DeploymentInvariant {
  import opened Options
  import opened DeploymentModel
  import opened DeploymentSteps
  import opened DeploymentRuns
  import opened DeploymentDiscipline
  import opened DeploymentProtocol
  import opened DeploymentSafety

  // ---- What a step does to the owed and pending results ----

  predicate SameCompletion(actor: Actor, next: Actor)
  {
    next.Completer? ==>
      actor.Completer? && next.process == actor.process && next.job == actor.job && next.completion == actor.completion
      && (next.step == Trying ==> actor.step == Trying)
  }

  ghost predicate DoneOrMovedOn(db: Db, m: Actor)
    requires m.Completer?
  {
    m.job < |db.jobs| && (Finished(db.jobs[m.job].status) || !StillCurrent(db, m.job, m.completion.details))
  }

  // Nothing is recorded or forgotten ...
  ghost predicate LeavesResults(sys: System, db': Db, actor: Actor, f: Effect)
  {
    && f.owed == sys.owed && f.pending == sys.pending && SameCompletion(actor, f.next)
    && (actor.Completer? && actor.step == Trying ==> f.next == actor || DoneOrMovedOn(db', actor))
  }

  // ... or a worker hands over its result ...
  ghost predicate HandsOver(sys: System, actor: Actor, f: Effect)
  {
    && actor.Worker? && (actor.stage.Ended? || actor.stage.Stored?) && f.call.None? && f.pending == sys.pending
    && f.next.Completer? && f.next.process == actor.process && f.next.job == actor.job && f.next.step == Trying
    && f.next.completion.target == TargetStatus(actor.task)
    && f.next.completion.details.attemptId == (if actor.stage.mark.Some? then Some(actor.stage.mark.value.id) else None)
    && f.next.completion.details.attemptVersion == (if actor.stage.mark.Some? then Some(actor.stage.mark.value.version) else None)
    && f.owed == sys.owed[(actor.process, actor.job) := f.next.completion]
  }

  // ... or the first write failed and the result is kept ...
  ghost predicate KeepsPending(sys: System, actor: Actor, f: Effect)
  {
    && actor.Completer? && actor.step == Trying && f.owed == sys.owed
    && f.pending == sys.pending[(actor.process, actor.job) := actor.completion]
    && SameCompletion(actor, f.next)
  }

  // ... or it is dropped for a reason.
  ghost predicate Drops(sys: System, db': Db, actor: Actor, f: Effect)
  {
    && actor.Completer? && actor.step != Trying && f.owed == sys.owed
    && f.pending == sys.pending - {(actor.process, actor.job)} && f.next.Gone? && DoneOrMovedOn(db', actor)
  }

  ghost predicate ResultEffect(sys: System, db': Db, actor: Actor, f: Effect)
  {
    LeavesResults(sys, db', actor, f) || HandsOver(sys, actor, f) || KeepsPending(sys, actor, f) || Drops(sys, db', actor, f)
  }

  lemma WorkerResults(sys: System, w: Actor, c: Choice, now: int, db': Db)
    requires w.Worker? && !w.stage.Ended? && !w.stage.Stored?
    ensures LeavesResults(sys, db', w, StepWorker(sys, w, c, now))
  {
  }

  lemma EndedResults(sys: System, w: Actor, c: Choice, now: int, db': Db)
    requires w.Worker? && (w.stage.Ended? || w.stage.Stored?)
    ensures var f := StepWorker(sys, w, c, now); LeavesResults(sys, db', w, f) || HandsOver(sys, w, f)
  {
  }

  lemma OtherResults(sys: System, actor: Actor, c: Choice, now: int, db': Db)
    requires !actor.Worker? && !actor.Completer?
    ensures LeavesResults(sys, db', actor, EffectOf(sys, actor, c, now))
  {
  }

  // A confirmed transition to the target leaves the job finished.
  lemma ConfirmedFinishes(db: Db, id: JobId, target: Status, details: Details, now: int)
    requires Confirmed(db, CallTransition(id, target, details), NoFault, now) && Finished(target)
    ensures id < |Apply(db, CallTransition(id, target, details), now).jobs|
      && Finished(Apply(db, CallTransition(id, target, details), now).jobs[id].status)
  {
  }

  lemma TryingResults(sys: System, m: Actor, c: Choice, now: int, db': Db)
    requires m.Completer? && m.step == Trying && Finished(m.completion.target)
    requires (c.Go? && Confirmed(sys.db, CallTransition(m.job, m.completion.target, m.completion.details), c.fault, now))
      ==> DoneOrMovedOn(db', m)
    ensures ResultEffect(sys, db', m, StepCompleter(sys, m, c, now))
  {
    var f := StepCompleter(sys, m, c, now);
    assert LeavesResults(sys, db', m, f) || KeepsPending(sys, m, f);
  }

  lemma RetryResults(sys: System, m: Actor, c: Choice, now: int, db': Db)
    requires m.Completer? && m.step != Trying && Finished(m.completion.target)
    requires DoneOrMovedOn(sys.db, m) ==> DoneOrMovedOn(db', m)
    requires (m.step == RetryWriting && c.Go?
        && Confirmed(sys.db, CallTransition(m.job, m.completion.target, m.completion.details), c.fault, now))
      ==> DoneOrMovedOn(db', m)
    ensures ResultEffect(sys, db', m, StepCompleter(sys, m, c, now))
  {
    var f := StepCompleter(sys, m, c, now);
    assert LeavesResults(sys, db', m, f) || Drops(sys, db', m, f);
  }

  lemma DoneStays(db: Db, db': Db, m: Actor)
    requires m.Completer? && DbInv(db) && DbInv(db') && Moves(db, db') && DetailsSeen(db, m.job, m.completion.details)
    requires DoneOrMovedOn(db, m)
    ensures DoneOrMovedOn(db', m)
  {
    if Finished(db.jobs[m.job].status) { FinishedStays(db, db', m.job); }
    else { MovedOnStays(db, db', m.job, m.completion.details); }
  }

  lemma FinishedStays(db: Db, db': Db, j: JobId)
    requires Moves(db, db') && j < |db.jobs| && Finished(db.jobs[j].status)
    ensures Finished(db'.jobs[j].status)
  {
    assert JobMoves(db.jobs[j], db'.jobs[j]);
  }

  lemma CompleterResults(sys: System, m: Actor, c: Choice, now: int)
    requires m.Completer? && DbInv(sys.db) && ActorFine(sys.db, m) && DetailsSeen(sys.db, m.job, m.completion.details)
    requires var f := StepCompleter(sys, m, c, now); var db' := Perform(sys.db, f.call, f.fault, now);
      DbInv(db') && Moves(sys.db, db')
    ensures var f := StepCompleter(sys, m, c, now); ResultEffect(sys, Perform(sys.db, f.call, f.fault, now), m, f)
  {
    var f := StepCompleter(sys, m, c, now);
    var db' := Perform(sys.db, f.call, f.fault, now);
    var call := CallTransition(m.job, m.completion.target, m.completion.details);
    if c.Go? && Confirmed(sys.db, call, c.fault, now) && (m.step == Trying || m.step == RetryWriting) {
      ConfirmedFinishes(sys.db, m.job, m.completion.target, m.completion.details, now);
      assert f.call == Some(call) && f.fault == NoFault;
    }
    if DoneOrMovedOn(sys.db, m) { DoneStays(sys.db, db', m); }
    if m.step == Trying { TryingResults(sys, m, c, now, db'); } else { RetryResults(sys, m, c, now, db'); }
  }

  lemma EveryResultEffect(sys: System, actor: Actor, c: Choice, now: int)
    requires DbInv(sys.db) && ActorFine(sys.db, actor)
    requires actor.Completer? ==> DetailsSeen(sys.db, actor.job, actor.completion.details)
    requires var f := EffectOf(sys, actor, c, now); var db' := Perform(sys.db, f.call, f.fault, now);
      DbInv(db') && Moves(sys.db, db')
    ensures var f := EffectOf(sys, actor, c, now); ResultEffect(sys, Perform(sys.db, f.call, f.fault, now), actor, f)
  {
    var f := EffectOf(sys, actor, c, now);
    var db' := Perform(sys.db, f.call, f.fault, now);
    if actor.Completer? { CompleterResults(sys, actor, c, now); }
    else if !actor.Worker? { OtherResults(sys, actor, c, now, db'); }
    else if actor.stage.Ended? || actor.stage.Stored? { EndedResults(sys, actor, c, now, db'); }
    else { WorkerResults(sys, actor, c, now, db'); }
  }

  // ---- Results stay accounted for ----

  lemma OwedStays(sys: System, sys': System, i: nat, key: (ProcessId, JobId))
    requires DbInv(sys.db) && DbInv(sys'.db) && Moves(sys.db, sys'.db)
    requires key in sys.owed && key in sys'.owed && sys'.owed[key] == sys.owed[key] && OwedFine(sys, key)
    requires i < |sys.actors| && |sys'.actors| >= |sys.actors|
    requires forall k | 0 <= k < |sys.actors| && k != i :: sys'.actors[k] == sys.actors[k]
    requires forall k | 0 <= k < |sys'.actors| :: !InBodyOn(sys'.actors[k], key.1)
    requires sys.actors[i] == Completer(key.0, key.1, sys.owed[key], Trying) && sys'.actors[i] != sys.actors[i] ==> NotLost(sys', key)
    requires key in sys.pending && key !in sys'.pending ==> NotLost(sys', key)
    requires key.1 in sys'.bodies
    ensures OwedFine(sys', key)
  {
    var j := key.1;
    assert JobMoves(sys.db.jobs[j], sys'.db.jobs[j]);
    var details := sys.owed[key].details;
    if details.attemptId.Some? && details.attemptVersion.Some? {
      MarkStays(sys.db, sys'.db, j, AttemptMark(details.attemptId.value, details.attemptVersion.value));
    }
    if Finished(sys.db.jobs[j].status) { FinishedStays(sys.db, sys'.db, j); }
    else if !StillCurrent(sys.db, j, details) { MovedOnStays(sys.db, sys'.db, j, details); }
    else if key !in sys.pending {
      var k :| 0 <= k < |sys.actors| && sys.actors[k] == Completer(key.0, key.1, sys.owed[key], Trying);
      if sys'.actors[k] == sys.actors[k] { assert sys'.actors[k] == Completer(key.0, key.1, sys'.owed[key], Trying); }
    }
  }

  // Nobody is in the body of a job whose result has been handed over.
  lemma StillNobodyInBody(sys: System, sys': System, i: nat, f: Effect, j: JobId)
    requires i < |sys.actors| && sys'.actors == sys.actors[i := f.next]
    requires StaysOut(sys, sys.actors[i], f) || EnteredBody(sys, sys'.db, sys.actors[i], f)
    requires forall k | 0 <= k < |sys.actors| :: !InBodyOn(sys.actors[k], j)
    requires j < |sys.db.jobs| && sys.db.jobs[j].status != Queued
    ensures forall k | 0 <= k < |sys'.actors| :: !InBodyOn(sys'.actors[k], j)
  {
    forall k | 0 <= k < |sys'.actors| ensures !InBodyOn(sys'.actors[k], j) {
      assert !InBodyOn(sys.actors[k], j);
    }
  }

  // The new owner of a result, seen right after the hand-over.
  lemma HandedOverIsOwed(sys: System, sys': System, i: nat, f: Effect)
    requires SysInv(sys) && i < |sys.actors| && HandsOver(sys, sys.actors[i], f)
    requires sys'.db == sys.db && sys'.actors == sys.actors[i := f.next] && sys'.owed == f.owed && sys'.bodies == sys.bodies
    ensures OwedFine(sys', (sys.actors[i].process, sys.actors[i].job))
  {
    var w := sys.actors[i];
    var key := (w.process, w.job);
    assert ActorFine(sys.db, w) && InBodyOn(w, w.job);
    forall k | 0 <= k < |sys'.actors| ensures !InBodyOn(sys'.actors[k], w.job) {
      assert k != i ==> !InBodyOn(sys.actors[k], w.job);
    }
    assert sys'.actors[i] == Completer(key.0, key.1, sys'.owed[key], Trying);
  }

  ghost predicate StepOf(sys: System, sys': System, i: nat, f: Effect)
  {
    && i < |sys.actors| && sys'.actors == sys.actors[i := f.next]
    && sys'.pending == f.pending && sys'.owed == f.owed && sys'.bodies == f.bodies && sys'.starts == f.starts
    && DbInv(sys'.db) && Moves(sys.db, sys'.db)
    && (f.call.None? ==> sys'.db == sys.db)
    && (StaysOut(sys, sys.actors[i], f) || EnteredBody(sys, sys'.db, sys.actors[i], f))
    && ResultEffect(sys, sys'.db, sys.actors[i], f)
  }

  lemma DroppedIsSettled(sys': System, m: Actor, key: (ProcessId, JobId))
    requires m.Completer? && key == (m.process, m.job) && DoneOrMovedOn(sys'.db, m)
    requires key in sys'.owed && sys'.owed[key] == m.completion
    ensures NotLost(sys', key)
  {
  }

  lemma OwedKept(sys: System, sys': System, i: nat, f: Effect, key: (ProcessId, JobId))
    requires SysInv(sys) && StepOf(sys, sys', i, f) && key in sys'.owed
    ensures OwedFine(sys', key)
  {
    var actor := sys.actors[i];
    if HandsOver(sys, actor, f) && key == (actor.process, actor.job) {
      HandedOverIsOwed(sys, sys', i, f);
    } else {
      assert key in sys.owed && sys'.owed[key] == sys.owed[key] && OwedFine(sys, key);
      StillNobodyInBody(sys, sys', i, f, key.1);
      if actor.Completer? && key == (actor.process, actor.job) {
        assert CompleterKnown(sys.owed, actor);
        if DoneOrMovedOn(sys'.db, actor) { DroppedIsSettled(sys', actor, key); }
      }
      OwedStays(sys, sys', i, key);
    }
  }

  ghost predicate KnownActor(sys: System, actor: Actor)
  {
    && (actor.Completer? ==> CompleterKnown(sys.owed, actor))
    && (actor.Worker? && !actor.stage.Waiting? ==> (actor.process, actor.job) !in sys.owed)
  }

  lemma PendingKept(sys: System, db': Db, actor: Actor, f: Effect)
    requires KnownActor(sys, actor) && ResultEffect(sys, db', actor, f)
    requires forall key | key in sys.pending :: key in sys.owed && sys.pending[key] == sys.owed[key]
    ensures forall key | key in f.pending :: key in f.owed && f.pending[key] == f.owed[key]
  {
  }

  lemma OwedGrows(sys: System, db': Db, actor: Actor, f: Effect)
    requires KnownActor(sys, actor) && ResultEffect(sys, db', actor, f)
    ensures forall key | key in sys.owed :: key in f.owed && f.owed[key] == sys.owed[key]
    ensures f.next.Completer? ==> CompleterKnown(f.owed, f.next)
  {
  }

  lemma CompletersKept(sys: System, i: nat, f: Effect, actors: seq<Actor>)
    requires i < |sys.actors| && actors == sys.actors[i := f.next]
    requires forall k | 0 <= k < |sys.actors| && sys.actors[k].Completer? :: CompleterKnown(sys.owed, sys.actors[k])
    requires forall key | key in sys.owed :: key in f.owed && f.owed[key] == sys.owed[key]
    requires f.next.Completer? ==> CompleterKnown(f.owed, f.next)
    ensures forall k | 0 <= k < |actors| && actors[k].Completer? :: CompleterKnown(f.owed, actors[k])
  {
    forall k | 0 <= k < |actors| && actors[k].Completer? ensures CompleterKnown(f.owed, actors[k]) {
      if k != i { assert CompleterKnown(sys.owed, sys.actors[k]); }
    }
  }

  lemma ActorIsKnown(sys: System, i: nat)
    requires SysInv(sys) && i < |sys.actors|
    ensures KnownActor(sys, sys.actors[i])
  {
    var actor := sys.actors[i];
    if actor.Completer? { assert CompleterKnown(sys.owed, actor); }
    else if actor.Worker? && !actor.stage.Waiting? { FreshKey(sys, i); }
  }

  lemma CompletionKept(sys: System, sys': System, i: nat, f: Effect)
    requires SysInv(sys) && StepOf(sys, sys', i, f)
    ensures CompletionFine(sys')
  {
    forall key | key in sys'.owed ensures OwedFine(sys', key) {
      OwedKept(sys, sys', i, f, key);
    }
    ActorIsKnown(sys, i);
    PendingKept(sys, sys'.db, sys.actors[i], f);
    OwedGrows(sys, sys'.db, sys.actors[i], f);
    CompletersKept(sys, i, f, sys'.actors);
  }

  // A job whose worker is still in its body has handed over nothing.
  lemma FreshKey(sys: System, i: nat)
    requires SysInv(sys) && i < |sys.actors| && sys.actors[i].Worker? && !sys.actors[i].stage.Waiting?
    ensures (sys.actors[i].process, sys.actors[i].job) !in sys.owed
  {
    var key := (sys.actors[i].process, sys.actors[i].job);
    if key in sys.owed {
      assert OwedFine(sys, key);
      assert InBodyOn(sys.actors[i], key.1);
    }
  }

  // ---- Every event keeps the invariant ----

  lemma OtherActorsStayFine(sys: System, i: nat, f: Effect, db': Db, now: int)
    requires SysInv(sys) && i < |sys.actors| && GoodCall(sys.db, sys.actors[i], f) && AfterCall(sys.db, db', f.call, f.fault, now)
    ensures forall k | 0 <= k < |sys.actors| && k != i :: ActorFine(db', sys.actors[k])
  {
    forall k | 0 <= k < |sys.actors| && k != i ensures ActorFine(db', sys.actors[k]) {
      var other := sys.actors[k];
      assert ActorFine(sys.db, other);
      if other.Worker? && !other.stage.Waiting? {
        assert InBodyOn(other, other.job);
        assert !(f.call.Some? && Rewrites(f.call.value) == Some(other.job));
        assert Still(sys.db, db', other.job);
      }
      ActorStays(sys.db, db', other);
    }
  }

  ghost predicate SoundStep(sys: System, i: nat, f: Effect, db': Db, now: int)
    requires i < |sys.actors|
  {
    var actor := sys.actors[i];
    && GoodCall(sys.db, actor, f) && AfterCall(sys.db, db', f.call, f.fault, now) && ActorFine(db', f.next)
    && (f.call.None? ==> db' == sys.db)
    && (StaysOut(sys, actor, f) || EnteredBody(sys, db', actor, f))
    && ((f.starts == sys.starts && BeginsOrKeeps(sys.db, actor, f.next)) || Starts(sys.db, actor, f, sys.starts))
    && ResultEffect(sys, db', actor, f)
  }

  lemma EveryStepIsSound(sys: System, i: nat, c: Choice, now: int)
    requires SysInv(sys) && i < |sys.actors|
    ensures var f := EffectOf(sys, sys.actors[i], c, now); SoundStep(sys, i, f, Perform(sys.db, f.call, f.fault, now), now)
  {
    var actor := sys.actors[i];
    var f := EffectOf(sys, actor, c, now);
    assert ActorFine(sys.db, actor);
    EveryStepIsGood(sys, actor, c, now);
    PerformKeeps(sys.db, f.call, f.fault, now);
    NextIsFine(sys.db, Perform(sys.db, f.call, f.fault, now), actor, f, now);
    BodyEffect(sys, actor, c, now);
    StartEffect(sys, actor, c, now);
    if actor.Completer? {
      assert CompleterKnown(sys.owed, actor);
      assert OwedFine(sys, (actor.process, actor.job));
    }
    EveryResultEffect(sys, actor, c, now);
  }

  lemma SoundStepKeeps(sys: System, i: nat, f: Effect, db': Db, now: int)
    requires SysInv(sys) && i < |sys.actors| && SoundStep(sys, i, f, db', now)
    ensures SysInv(AfterStep(sys, i, f, db')) && SysKeeps(sys.db, db')
  {
    var sys' := AfterStep(sys, i, f, db');
    OtherActorsStayFine(sys, i, f, db', now);
    BodiesKept(sys, i, f, db', now);
    StartsKept(sys, i, f, db');
    CompletionKept(sys, sys', i, f);
  }

  function AfterStep(sys: System, i: nat, f: Effect, db': Db): System
    requires i < |sys.actors|
  {
    System(db', sys.actors[i := f.next], f.pending, f.owed, f.bodies, f.starts)
  }

  lemma ActIsStep(sys: System, i: nat, c: Choice, now: int)
    requires i < |sys.actors|
    ensures var f := EffectOf(sys, sys.actors[i], c, now);
      Do(sys, Act(i, c), now) == AfterStep(sys, i, f, Perform(sys.db, f.call, f.fault, now))
  {
  }

  lemma ActKeeps(sys: System, i: nat, c: Choice, now: int)
    requires SysInv(sys) && i < |sys.actors|
    ensures SysInv(Do(sys, Act(i, c), now)) && SysKeeps(sys.db, Do(sys, Act(i, c), now).db)
  {
    EveryStepIsSound(sys, i, c, now);
    ActIsStep(sys, i, c, now);
    var f := EffectOf(sys, sys.actors[i], c, now);
    SoundStepKeeps(sys, i, f, Perform(sys.db, f.call, f.fault, now), now);
  }

  // ---- New actors, new jobs and crashes ----

  // A process gains an actor that is not past any gate.
  predicate Newcomer(actor: Actor)
  {
    (actor.Completer? ==> actor.step == Retrying) && (actor.Worker? ==> actor.stage.Waiting?)
  }

  lemma OldActorsStayFine(sys: System, db': Db)
    requires SysInv(sys) && SysKeeps(sys.db, db') && OthersKeepEvidence(sys.db, db', None)
    ensures forall k | 0 <= k < |sys.actors| :: ActorFine(db', sys.actors[k])
  {
    forall k | 0 <= k < |sys.actors| ensures ActorFine(db', sys.actors[k]) {
      var actor := sys.actors[k];
      assert ActorFine(sys.db, actor);
      if actor.Worker? { assert Still(sys.db, db', actor.job); }
      ActorStays(sys.db, db', actor);
    }
  }

  lemma HistoryKept(sys: System, sys': System)
    requires SysInv(sys) && DbInv(sys'.db) && Moves(sys.db, sys'.db) && |sys'.db.attempts| == |sys.db.attempts|
    requires sys'.bodies == sys.bodies && sys'.starts == sys.starts && sys'.owed == sys.owed && sys'.pending == sys.pending
    requires |sys'.actors| >= |sys.actors| && forall k | 0 <= k < |sys.actors| :: sys'.actors[k] == sys.actors[k]
    requires forall k | |sys.actors| <= k < |sys'.actors| :: Newcomer(sys'.actors[k])
    ensures BodiesFine(sys') && Exclusive(sys'.actors) && StartsFine(sys')
    ensures forall key | key in sys'.owed :: OwedFine(sys', key)
  {
    forall j | j in sys'.bodies ensures j < |sys'.db.jobs| && sys'.db.jobs[j].status != Queued {
      assert JobMoves(sys.db.jobs[j], sys'.db.jobs[j]);
    }
    forall a | 0 <= a < |sys'.db.attempts| ensures sys'.db.attempts[a].jobId in sys'.bodies {
      assert AttemptMoves(sys.db.attempts[a], sys'.db.attempts[a]);
    }
    forall k, j | 0 <= k < |sys'.actors| && InBodyOn(sys'.actors[k], j) ensures k < |sys.actors| && j in sys'.bodies {
      assert k < |sys.actors| && InBodyOn(sys.actors[k], j);
    }
    forall k | 0 <= k < |sys'.starts| ensures StartFine(sys'.db, sys'.starts[k]) {
      StartStays(sys.db, sys'.db, sys.starts[k]);
    }
    forall x, k | 0 <= x < |sys'.actors| && 0 <= k < |sys'.starts| ensures NotYetStarted(sys'.actors[x], sys'.starts[k].attempt) {
      if x < |sys.actors| { assert NotYetStarted(sys.actors[x], sys.starts[k].attempt); }
    }
    forall key | key in sys'.owed ensures OwedFine(sys', key) {
      OwedThroughNews(sys, sys', key);
    }
  }

  lemma OwedThroughNews(sys: System, sys': System, key: (ProcessId, JobId))
    requires DbInv(sys.db) && DbInv(sys'.db) && Moves(sys.db, sys'.db) && key in sys.owed && OwedFine(sys, key)
    requires sys'.bodies == sys.bodies && sys'.owed == sys.owed && sys'.pending == sys.pending
    requires |sys'.actors| >= |sys.actors| && forall k | 0 <= k < |sys.actors| :: sys'.actors[k] == sys.actors[k]
    requires forall k | |sys.actors| <= k < |sys'.actors| :: Newcomer(sys'.actors[k])
    ensures OwedFine(sys', key)
  {
    forall k | 0 <= k < |sys'.actors| ensures !InBodyOn(sys'.actors[k], key.1) {
      if k < |sys.actors| { assert !InBodyOn(sys.actors[k], key.1); }
    }
    if |sys.actors| > 0 {
      OwedStays(sys, sys', 0, key);
    } else {
      var details := sys.owed[key].details;
      assert JobMoves(sys.db.jobs[key.1], sys'.db.jobs[key.1]);
      if details.attemptId.Some? && details.attemptVersion.Some? {
        MarkStays(sys.db, sys'.db, key.1, AttemptMark(details.attemptId.value, details.attemptVersion.value));
      }
      if Finished(sys.db.jobs[key.1].status) { FinishedStays(sys.db, sys'.db, key.1); }
      else if !StillCurrent(sys.db, key.1, details) { MovedOnStays(sys.db, sys'.db, key.1, details); }
    }
  }

  lemma JoinKeeps(sys: System, db': Db, actor: Option<Actor>)
    requires SysInv(sys) && SysKeeps(sys.db, db') && OthersKeepEvidence(sys.db, db', None)
    requires |db'.attempts| == |sys.db.attempts|
    requires actor.Some? ==> Newcomer(actor.value) && ActorFine(db', actor.value)
    requires actor.Some? && actor.value.Completer? ==> CompleterKnown(sys.owed, actor.value)
    ensures SysInv(Join(sys, db', actor))
  {
    var sys' := Join(sys, db', actor);
    OldActorsStayFine(sys, db');
    HistoryKept(sys, sys');
    forall k | 0 <= k < |sys'.actors| && sys'.actors[k].Completer? ensures CompleterKnown(sys'.owed, sys'.actors[k]) {
      if k < |sys.actors| { assert CompleterKnown(sys.owed, sys.actors[k]); }
    }
  }

  lemma CreatedFits(db: Db, kind: Kind, input: NewJob, allowed: bool, now: int)
    ensures var o := CreateOnce(db, kind, input, allowed, now);
      o.Committed? ==> o.value.id < |o.db.jobs| && o.db.jobs[o.value.id].kind == kind && o.db.jobs[o.value.id].dryRunJobId.None?
  {
  }

  lemma CreationEventKeeps(sys: System, process: ProcessId, call: Call, o: Outcome<Creation>, task: Task, fault: Fault, now: int)
    requires SysInv(sys) && (call.CallCreateDryRun? || call.CallCreateDirect?)
    requires call.CallCreateDryRun? ==> task == DryRunTask && o == CreateDryRun(sys.db, call.input, now)
    requires call.CallCreateDirect? ==> task == DirectTask && o == CreateDirectDeployment(sys.db, call.input, call.confirmed, call.mayDeploy, now)
    ensures SysInv(Created(sys, process, call, o, task, fault, now))
    ensures SysKeeps(sys.db, Created(sys, process, call, o, task, fault, now).db)
  {
    var db' := Perform(sys.db, Some(call), fault, now);
    PerformKeeps(sys.db, Some(call), fault, now);
    assert OthersKeepEvidence(sys.db, db', None);
    assert |db'.attempts| == |sys.db.attempts|;
    if fault == NoFault && o.Committed? && o.value.created && !Recovering(sys.actors) {
      CreatedFits(sys.db, if task == DryRunTask then DryRun else Deployment, call.input,
                  call.CallCreateDryRun? || call.mayDeploy, now);
      JoinKeeps(sys, db', Some(Worker(process, o.value.id, task, Waiting)));
    } else {
      JoinKeeps(sys, db', None);
    }
  }

  lemma SpawnKeeps(sys: System, actor: Actor)
    requires SysInv(sys) && Newcomer(actor) && ActorFine(sys.db, actor)
    requires actor.Completer? ==> CompleterKnown(sys.owed, actor)
    ensures SysInv(Join(sys, sys.db, Some(actor)))
  {
    NothingChanged(sys.db);
    JoinKeeps(sys, sys.db, Some(actor));
  }

  lemma RetryKeeps(sys: System, process: ProcessId, job: JobId)
    requires SysInv(sys) && (process, job) in sys.pending
    ensures SysInv(Join(sys, sys.db, Some(Completer(process, job, sys.pending[(process, job)], Retrying))))
  {
    assert OwedFine(sys, (process, job));
    SpawnKeeps(sys, Completer(process, job, sys.pending[(process, job)], Retrying));
  }

  lemma OwedThroughCrash(sys: System, process: ProcessId, key: (ProcessId, JobId))
    requires key in sys.owed && OwedFine(sys, key) && key.0 != process
    ensures OwedFine(Do(sys, Crash(process), 0), key)
  {
    var sys' := Do(sys, Crash(process), 0);
    forall k | 0 <= k < |sys'.actors| ensures !InBodyOn(sys'.actors[k], key.1) {
      assert !InBodyOn(sys.actors[k], key.1);
    }
    if exists i :: 0 <= i < |sys.actors| && sys.actors[i] == Completer(key.0, key.1, sys.owed[key], Trying) {
      var i :| 0 <= i < |sys.actors| && sys.actors[i] == Completer(key.0, key.1, sys.owed[key], Trying);
      assert sys'.actors[i] == Completer(key.0, key.1, sys'.owed[key], Trying);
    }
  }

  lemma BodiesThroughCrash(sys: System, process: ProcessId)
    requires SysInv(sys)
    ensures var sys' := Do(sys, Crash(process), 0); BodiesFine(sys') && Exclusive(sys'.actors) && StartsFine(sys')
  {
    var sys' := Do(sys, Crash(process), 0);
    forall k, j | 0 <= k < |sys'.actors| && InBodyOn(sys'.actors[k], j) ensures InBodyOn(sys.actors[k], j) {
    }
    forall x, k | 0 <= x < |sys'.actors| && 0 <= k < |sys'.starts| ensures NotYetStarted(sys'.actors[x], sys'.starts[k].attempt) {
      assert NotYetStarted(sys.actors[x], sys.starts[k].attempt);
    }
  }

  lemma CrashKeeps(sys: System, process: ProcessId)
    requires SysInv(sys)
    ensures SysInv(Do(sys, Crash(process), 0))
  {
    var sys' := Do(sys, Crash(process), 0);
    BodiesThroughCrash(sys, process);
    forall k | 0 <= k < |sys'.actors| ensures ActorFine(sys'.db, sys'.actors[k]) {
      assert ActorFine(sys.db, sys.actors[k]);
    }
    forall key | key in sys'.owed ensures OwedFine(sys', key) {
      OwedThroughCrash(sys, process, key);
    }
    forall k | 0 <= k < |sys'.actors| && sys'.actors[k].Completer? ensures CompleterKnown(sys'.owed, sys'.actors[k]) {
      assert CompleterKnown(sys.owed, sys.actors[k]);
    }
  }

  // ---- Every run ----

  lemma RequestKeeps(sys: System, e: Event, now: int)
    requires SysInv(sys) && (e.RequestApproval? || e.RequestReconcile? || e.RequestBind?)
    ensures SysInv(Do(sys, e, now)) && Do(sys, e, now).db == sys.db
  {
    match e
    case RequestApproval(process, request) =>
      if request.dryRunJobId < |sys.db.jobs| { SpawnKeeps(sys, Approver(process, request, sys.db.jobs[request.dryRunJobId])); }
    case RequestReconcile(process, job) =>
      if job < |sys.db.jobs| { SpawnKeeps(sys, Reconciler(process, job, sys.db.jobs[job], SawJob)); }
    case RequestBind(process, job, operation, remoteId) =>
      if CurrentMark(sys.db, job).Some? {
        SpawnKeeps(sys, Binder(process, job, CurrentMark(sys.db, job).value.id, operation, remoteId, false));
      }
  }

  lemma RetryBeginsOrNot(sys: System, process: ProcessId, job: JobId, now: int)
    ensures Do(sys, BeginRetry(process, job), now)
      == if (process, job) in sys.pending then Join(sys, sys.db, Some(Completer(process, job, sys.pending[(process, job)], Retrying)))
         else sys
  {
  }

  lemma RetryEventKeeps(sys: System, process: ProcessId, job: JobId, now: int)
    requires SysInv(sys)
    ensures SysInv(Do(sys, BeginRetry(process, job), now))
  {
    RetryBeginsOrNot(sys, process, job, now);
    if (process, job) in sys.pending { RetryKeeps(sys, process, job); }
  }

  lemma MaintenanceLeavesRows(sys: System, e: Event, now: int)
    requires e.BeginRetry? || e.BeginRecovery? || e.BeginExpiry? || e.BeginRejection?
    ensures Do(sys, e, now).db == sys.db
  {
  }

  lemma RecoveryEventKeeps(sys: System, process: ProcessId, now: int)
    requires SysInv(sys)
    ensures SysInv(Do(sys, BeginRecovery(process), now))
  {
    if !Working(sys.actors) { SpawnKeeps(sys, Recoverer(process, Interrupted(sys.db.jobs, 0))); }
  }

  lemma ExpiryEventKeeps(sys: System, process: ProcessId, expired: seq<JobId>, now: int)
    requires SysInv(sys)
    ensures SysInv(Do(sys, BeginExpiry(process, expired), now))
  {
    SpawnKeeps(sys, Expirer(process, expired));
  }

  lemma RejectionEventKeeps(sys: System, process: ProcessId, job: JobId, now: int)
    requires SysInv(sys)
    ensures SysInv(Do(sys, BeginRejection(process, job), now))
  {
    SpawnKeeps(sys, Rejecter(process, job));
  }

  lemma MaintenanceKeeps(sys: System, e: Event, now: int)
    requires SysInv(sys) && (e.BeginRetry? || e.BeginRecovery? || e.BeginExpiry? || e.BeginRejection?)
    ensures SysInv(Do(sys, e, now)) && Do(sys, e, now).db == sys.db
  {
    MaintenanceLeavesRows(sys, e, now);
    match e
    case BeginRetry(process, job) => RetryEventKeeps(sys, process, job, now);
    case BeginRecovery(process) => RecoveryEventKeeps(sys, process, now);
    case BeginExpiry(process, expired) => ExpiryEventKeeps(sys, process, expired, now);
    case BeginRejection(process, job) => RejectionEventKeeps(sys, process, job, now);
  }

  lemma CreatingKeeps(sys: System, e: Event, now: int)
    requires SysInv(sys) && (e.RequestDryRun? || e.RequestDirect?)
    ensures SysInv(Do(sys, e, now)) && SysKeeps(sys.db, Do(sys, e, now).db)
  {
    match e
    case RequestDryRun(process, input, fault) =>
      CreationEventKeeps(sys, process, CallCreateDryRun(input), CreateDryRun(sys.db, input, now), DryRunTask, fault, now);
    case RequestDirect(process, input, confirmed, mayDeploy, fault) =>
      CreationEventKeeps(sys, process, CallCreateDirect(input, confirmed, mayDeploy),
                         CreateDirectDeployment(sys.db, input, confirmed, mayDeploy, now), DirectTask, fault, now);
  }

  lemma EventKeeps(sys: System, e: Event, now: int)
    requires SysInv(sys)
    ensures SysInv(Do(sys, e, now)) && SysKeeps(sys.db, Do(sys, e, now).db)
  {
    NothingChanged(sys.db);
    if e.Act? {
      if e.actor < |sys.actors| { ActKeeps(sys, e.actor, e.choice, now); }
    } else if e.Crash? {
      CrashKeeps(sys, e.process);
    } else if e.RequestDryRun? || e.RequestDirect? {
      CreatingKeeps(sys, e, now);
    } else if e.RequestApproval? || e.RequestReconcile? || e.RequestBind? {
      RequestKeeps(sys, e, now);
    } else {
      MaintenanceKeeps(sys, e, now);
    }
  }

  lemma SysKeepsTransitive(d0: Db, d1: Db, d2: Db)
    requires DbInv(d0) && SysKeeps(d0, d1) && SysKeeps(d1, d2)
    ensures SysKeeps(d0, d2)
  {
    MovesTransitive(d0, d1, d2);
    forall j | 0 <= j < |d0.jobs| ensures EvidenceKept(d0, d2, j) {
      assert EvidenceKept(d0, d1, j) && EvidenceKept(d1, d2, j) && JobMoves(d0.jobs[j], d1.jobs[j]);
    }
  }

  lemma BootIsFine()
    ensures SysInv(BOOT)
  {
  }

  lemma {:induction false} PlayKeeps(sys: System, events: seq<TimedEvent>)
    requires SysInv(sys)
    ensures SysInv(Play(sys, events)) && SysKeeps(sys.db, Play(sys, events).db)
  {
    if events == [] {
      NothingChanged(sys.db);
    } else {
      var last := |events| - 1;
      PlayKeeps(sys, events[..last]);
      EventKeeps(Play(sys, events[..last]), events[last].event, events[last].now);
      SysKeepsTransitive(sys.db, Play(sys, events[..last]).db, Play(sys, events).db);
    }
  }
}
