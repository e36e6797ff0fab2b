// The total limit of the Git cache holds from the first lease on, in every interleaving, unless
// a removal fails at the wrong moment (src/git/git-cache.ts).
module GitCacheQuota {
  import opened Options
  import opened CacheLocks
  import opened GitCache

  // The key is reserved by an acquire for which the total has not been checked.
  ghost predicate Unsettled(s: State, key: Key)
  {
    exists i :: 0 <= i < |s.ops| && s.ops[i].key == key && Unchecked(s.ops[i].phase)
  }

  // What a key counts for: an unchecked reservation what is on the disk, everything else what is
  // recorded. That is the limit per repository for a lease (LeasesCountInFull).
  ghost function Weight(s: State, key: Key, limits: Limits): nat
  {
    if key !in s.sizes then 0
    else if Unsettled(s, key) then Capped(s, key, limits)
    else s.sizes[key]
  }

  ghost function Committed(s: State, limits: Limits): map<Key, nat>
  {
    map key | key in s.sizes :: Weight(s, key, limits)
  }

  ghost predicate WithinTotal(s: State, limits: Limits) { Sum(Committed(s, limits)) <= limits.total }

  predicate Leased(op: Op) { op.phase.Preparing? || op.phase.Granted? }

  // ---- One step moves the weight of one key ----

  lemma OneWeightChanges(s: State, s': State, key: Key, limits: Limits)
    requires s'.sizes - {key} == s.sizes - {key}
    requires forall k | k != key && k in s.sizes && k in s'.sizes :: Weight(s', k, limits) == Weight(s, k, limits)
    ensures Sum(Committed(s', limits)) + Weight(s, key, limits) == Sum(Committed(s, limits)) + Weight(s', key, limits)
  {
    var m, m' := Committed(s, limits), Committed(s', limits);
    forall k ensures k in m - {key} <==> k in m' - {key} {
      assert k in s.sizes - {key} <==> k in s'.sizes - {key};
    }
    assert m - {key} == m' - {key};
    if key in m { SumSplit(m, key); } else { assert m - {key} == m; }
    if key in m' { SumSplit(m', key); } else { assert m' - {key} == m'; }
  }

  // Only the acquire that holds a key can leave it unsettled.
  lemma HolderSettles(s: State, s': State, i: nat, k: Key)
    requires i < |s.ops| && |s'.ops| == |s.ops| && s'.ops == s.ops[i := s'.ops[i]] && s'.ops[i].key == s.ops[i].key
    requires LockInv(Staged(LocksOf(s), i, Holding))
    ensures Unsettled(s', k) <==> if k == s.ops[i].key then Unchecked(s'.ops[i].phase) else Unsettled(s, k)
    ensures k == s.ops[i].key ==> (Unsettled(s, k) <==> Unchecked(s.ops[i].phase))
  {
    if k == s.ops[i].key {
      forall j | 0 <= j < |s.ops| && j != i && s.ops[j].key == k ensures !Unchecked(s.ops[j].phase) {
        OthersAreNotCharged(s, i, j);
      }
    } else {
      assert forall j | 0 <= j < |s.ops| && s.ops[j].key == k :: s'.ops[j] == s.ops[j];
      if Unsettled(s, k) {
        var j :| 0 <= j < |s.ops| && s.ops[j].key == k && Unchecked(s.ops[j].phase);
        assert s'.ops[j] == s.ops[j];
      }
    }
  }

  lemma OwnKeyStep(s: State, s': State, i: nat, limits: Limits)
    requires i < |s.ops| && LockInv(Staged(LocksOf(s), i, Holding)) && OneKey(s, s', i, s.ops[i].key)
    ensures var key := s.ops[i].key;
      Sum(Committed(s', limits)) + Weight(s, key, limits) == Sum(Committed(s, limits)) + Weight(s', key, limits)
    ensures Unsettled(s', s.ops[i].key) <==> Unchecked(s'.ops[i].phase)
    ensures Unsettled(s, s.ops[i].key) <==> Unchecked(s.ops[i].phase)
  {
    var key := s.ops[i].key;
    forall k | k != key && k in s.sizes && k in s'.sizes ensures Weight(s', k, limits) == Weight(s, k, limits) {
      HolderSettles(s, s', i, k);
      OtherKeysSame(s, s', i, key, k);
    }
    HolderSettles(s, s', i, key);
    OneWeightChanges(s, s', key, limits);
  }

  // Weights never exceed recorded sizes.
  lemma CommittedAtMostRecorded(s: State, limits: Limits)
    requires SizesFine(s, limits)
    ensures Sum(Committed(s, limits)) <= Sum(s.sizes)
  {
    forall k | k in s.sizes ensures Weight(s, k, limits) <= s.sizes[k] {
      assert Capped(s, k, limits) <= SizeOf(s, k);
    }
    SumMonotone(Committed(s, limits), s.sizes);
  }

  // ---- The steps ----

  // A step keeps the committed sum down, or the sum has just been checked.
  ghost predicate NoMore(s: State, s': State, limits: Limits)
  {
    Sum(Committed(s', limits)) <= Sum(Committed(s, limits)) || WithinTotal(s', limits)
  }

  lemma ResumeQuota(s: State, i: nat, cancelled: bool, limits: Limits)
    requires Inv(s, limits) && Enabled(s, DoResume(i, cancelled))
    ensures var s' := Resume(s, i, cancelled, limits); NoMore(s, s', limits)
    ensures var s' := Resume(s, i, cancelled, limits); Leased(s'.ops[i]) ==> WithinTotal(s', limits)
  {
    var s' := Resume(s, i, cancelled, limits);
    ResumeKeeps(s, i, cancelled, limits);
    ResumeLocks(s, i, cancelled, limits);
    OwnKeyStep(s, s', i, limits);
    assert Capped(s, s.ops[i].key, limits) <= SizeOf(s, s.ops[i].key);
    CommittedAtMostRecorded(s', limits);
  }

  lemma StattedQuota(s: State, i: nat, order: Option<seq<Key>>, limits: Limits)
    requires Inv(s, limits) && i < |s.ops| && s.ops[i].phase.Statting?
    ensures var s' := Statted(s, i, order, limits); NoMore(s, s', limits)
    ensures var s' := Statted(s, i, order, limits); |s'.ops| == |s.ops| && (Leased(s'.ops[i]) ==> WithinTotal(s', limits))
  {
    var s' := Statted(s, i, order, limits);
    StattedKeeps(s, i, order, limits);
    HolderView(s, i);
    OwnKeyStep(s, s', i, limits);
    if order.Some? { NextVictimEffect(s, i, order.value, limits); }
    CommittedAtMostRecorded(s', limits);
  }

  lemma DeletedQuota(s: State, i: nat, ok: bool, left: nat, limits: Limits)
    requires Inv(s, limits) && i < |s.ops| && s.ops[i].phase.Deleting?
    ensures var s' := AfterDeletion(s, i, ok, left, limits); NoMore(s, s', limits)
    ensures var s' := AfterDeletion(s, i, ok, left, limits); |s'.ops| == |s.ops| && (Leased(s'.ops[i]) ==> WithinTotal(s', limits))
  {
    var s', id := AfterDeletion(s, i, ok, left, limits), s.ops[i].phase.id;
    AfterDeletionKeeps(s, i, ok, left, limits);
    NextVictimEffect(Deleted(s, i, ok, left), i, s.ops[i].phase.rest, limits);
    CommittedAtMostRecorded(s', limits);
    if !Leased(s'.ops[i]) {
      assert Unchecked(s'.ops[i].phase);
      forall k ensures Unsettled(s', k) <==> Unsettled(s, k) { StillUnsettled(s, s', i, k); }
      forall k | k != id && k in s.sizes && k in s'.sizes ensures Weight(s', k, limits) == Weight(s, k, limits) {
        OtherKeysSame(s, s', i, id, k);
      }
      EvictedIsSettled(s, i);
      OneWeightChanges(s, s', id, limits);
    }
  }

  lemma StillUnsettled(s: State, s': State, i: nat, k: Key)
    requires i < |s.ops| && |s'.ops| == |s.ops| && s'.ops == s.ops[i := s'.ops[i]] && s'.ops[i].key == s.ops[i].key
    requires Unchecked(s.ops[i].phase) && Unchecked(s'.ops[i].phase)
    ensures Unsettled(s', k) <==> Unsettled(s, k)
  {
    if Unsettled(s, k) {
      var j :| 0 <= j < |s.ops| && s.ops[j].key == k && Unchecked(s.ops[j].phase);
      assert s'.ops[j].key == k && Unchecked(s'.ops[j].phase);
    }
    if Unsettled(s', k) {
      var j :| 0 <= j < |s'.ops| && s'.ops[j].key == k && Unchecked(s'.ops[j].phase);
      assert s.ops[j].key == k && Unchecked(s.ops[j].phase);
    }
  }

  lemma EvictedIsSettled(s: State, i: nat)
    requires LockInv(LocksOf(s)) && i < |s.ops| && s.ops[i].phase.Deleting?
    ensures !Unsettled(s, s.ops[i].phase.id)
  {
    forall j | 0 <= j < |s.ops| && s.ops[j].key == s.ops[i].phase.id ensures !Unchecked(s.ops[j].phase) {
      EvictedIsNotCharged(s, i, j);
    }
  }

  lemma LeaseQuota(s: State, step: Step, limits: Limits)
    requires Inv(s, limits) && Enabled(s, step)
    requires step.DoPrepared? || step.DoWork? || step.DoRelease?
    ensures Sum(Committed(Do(s, step, limits), limits)) <= Sum(Committed(s, limits))
  {
    var s', i := Do(s, step, limits), step.i;
    LeaseKeeps(s, step, limits);
    HolderView(s, i);
    OwnKeyStep(s, s', i, limits);
    assert Capped(s, s.ops[i].key, limits) <= SizeOf(s, s.ops[i].key);
  }

  lemma MeasuredQuota(s: State, i: nat, ok: bool, limits: Limits)
    requires Inv(s, limits) && i < |s.ops| && s.ops[i].phase.Measuring?
    ensures Sum(Committed(Measured(s, i, ok, limits), limits)) <= Sum(Committed(s, limits))
  {
    MeasuredKeeps(s, i, ok, limits);
    HolderView(s, i);
    OwnKeyStep(s, Measured(s, i, ok, limits), i, limits);
    assert Capped(s, s.ops[i].key, limits) <= SizeOf(s, s.ops[i].key);
  }

  lemma TouchedQuota(s: State, i: nat, ok: bool, limits: Limits)
    requires Inv(s, limits) && i < |s.ops| && s.ops[i].phase.Touching?
    ensures Sum(Committed(Touched(s, i, ok), limits)) == Sum(Committed(s, limits))
  {
    TouchedKeeps(s, i, ok, limits);
    HolderView(s, i);
    OwnKeyStep(s, Touched(s, i, ok), i, limits);
  }

  // The end of a removal: a failed one counts the key at the full limit again.
  lemma RemovedQuota(s: State, i: nat, ok: bool, left: nat, limits: Limits)
    requires Inv(s, limits) && i < |s.ops| && s.ops[i].phase.Removing?
    ensures Sum(Committed(Removed(s, i, ok, left, limits), limits))
         == Sum(Committed(s, limits)) - Weight(s, s.ops[i].key, limits) + if ok then 0 else limits.repository
  {
    RemovedKeeps(s, i, ok, left, limits);
    HolderView(s, i);
    OwnKeyStep(s, Removed(s, i, ok, left, limits), i, limits);
  }

  // ---- Whole runs ----

  // A failing removal is harmless when the full limit for its key still fits.
  ghost predicate RemovalFits(s: State, step: Step, limits: Limits)
  {
    Enabled(s, step) && step.DoRemoved? && !step.ok ==>
      Sum(Committed(s, limits)) - Weight(s, s.ops[step.i].key, limits) + limits.repository <= limits.total
  }

  ghost predicate RemovalsFit(s: State, steps: seq<Step>, limits: Limits)
  {
    steps == []
    || (RemovalsFit(s, steps[..|steps| - 1], limits)
        && RemovalFits(Run(s, steps[..|steps| - 1], limits), steps[|steps| - 1], limits))
  }

  // From a total that holds, a step breaks it exactly when a failing removal does not fit.
  lemma StepKeepsTotal(s: State, step: Step, limits: Limits)
    requires Inv(s, limits) && WithinTotal(s, limits)
    ensures WithinTotal(Do(s, step, limits), limits) <==> RemovalFits(s, step, limits)
  {
    if Enabled(s, step) {
      match step
      case DoAcquire(key) => SameWeights(s, Acquire(s, key), limits);
      case DoClose => SameWeights(s, s.(closed := true), limits);
      case DoResume(i, cancelled) => ResumeQuota(s, i, cancelled, limits);
      case DoStatted(i, order) => StattedQuota(s, i, order, limits);
      case DoDeleted(i, ok, left) => DeletedQuota(s, i, ok, left, limits);
      case DoMeasured(i, ok) => MeasuredQuota(s, i, ok, limits);
      case DoTouched(i, ok) => TouchedQuota(s, i, ok, limits);
      case DoRemoved(i, ok, left) => RemovedQuota(s, i, ok, left, limits);
      case _ => LeaseQuota(s, step, limits);
    }
  }

  lemma SameWeights(s: State, s': State, limits: Limits)
    requires s'.sizes == s.sizes && s'.disk == s.disk
    requires s'.ops == s.ops || exists key, prior :: s'.ops == s.ops + [Op(key, Waiting(prior))]
    ensures Committed(s', limits) == Committed(s, limits)
  {
    forall k ensures Unsettled(s', k) <==> Unsettled(s, k) {
      if Unsettled(s, k) {
        var j :| 0 <= j < |s.ops| && s.ops[j].key == k && Unchecked(s.ops[j].phase);
        assert s'.ops[j] == s.ops[j];
      }
    }
  }

  predicate Checks(step: Step) { step.DoResume? || step.DoStatted? || step.DoDeleted? }

  lemma ReleaseDoesNotLease(s: State, step: Step, limits: Limits, i: nat)
    requires step.DoMeasured? || step.DoTouched? || step.DoRemoved?
    requires var s' := Do(s, step, limits); i < |s'.ops| && Leased(s'.ops[i])
    ensures i < |s.ops| && Leased(s.ops[i])
  {
  }

  lemma OtherStepsDoNotLease(s: State, step: Step, limits: Limits, i: nat)
    requires !Checks(step)
    requires var s' := Do(s, step, limits); i < |s'.ops| && Leased(s'.ops[i])
    ensures i < |s.ops| && Leased(s.ops[i])
  {
    if step.DoMeasured? || step.DoTouched? || step.DoRemoved? { ReleaseDoesNotLease(s, step, limits, i); }
  }

  lemma CheckWithinTotal(s: State, step: Step, limits: Limits)
    requires Inv(s, limits) && Checks(step) && Enabled(s, step)
    ensures var s' := Do(s, step, limits);
      |s'.ops| == |s.ops| && (forall j | 0 <= j < |s.ops| && j != step.i :: s'.ops[j] == s.ops[j])
      && (Leased(s'.ops[step.i]) ==> WithinTotal(s', limits))
  {
    match step
    case DoResume(j, cancelled) =>
      ResumeKeeps(s, j, cancelled, limits);
      ResumeQuota(s, j, cancelled, limits);
    case DoStatted(j, order) =>
      StattedKeeps(s, j, order, limits);
      StattedQuota(s, j, order, limits);
    case DoDeleted(j, ok, left) =>
      AfterDeletionKeeps(s, j, ok, left, limits);
      DeletedQuota(s, j, ok, left, limits);
  }

  // A lease is granted only within the total.
  lemma NewLeaseWithinTotal(s: State, step: Step, limits: Limits, i: nat)
    requires Inv(s, limits)
    requires var s' := Do(s, step, limits); i < |s'.ops| && Leased(s'.ops[i])
    requires !(i < |s.ops| && Leased(s.ops[i]))
    ensures WithinTotal(Do(s, step, limits), limits)
  {
    if !Checks(step) {
      OtherStepsDoNotLease(s, step, limits, i);
    } else if Enabled(s, step) {
      CheckWithinTotal(s, step, limits);
    }
  }

  // From the first lease on the total holds: leases at the full limit per repository, everything
  // else as recorded.
  lemma {:induction false} TotalHolds(s: State, steps: seq<Step>, limits: Limits, n: nat, i: nat)
    requires Opened(s) && n <= |steps| && RemovalsFit(s, steps, limits)
    requires var t := Run(s, steps[..n], limits); i < |t.ops| && Leased(t.ops[i])
    ensures WithinTotal(Run(s, steps, limits), limits)
    decreases |steps|
  {
    if steps != [] {
      var init, step := steps[..|steps| - 1], steps[|steps| - 1];
      var t := Run(s, init, limits);
      RunKeeps(s, init, limits);
      if n < |steps| {
        assert init[..n] == steps[..n];
        TotalHolds(s, init, limits, n, i);
        StepKeepsTotal(t, step, limits);
      } else {
        assert steps[..n] == steps;
        if i < |t.ops| && Leased(t.ops[i]) {
          assert init[..|init|] == init;
          TotalHolds(s, init, limits, |init|, i);
          StepKeepsTotal(t, step, limits);
        } else {
          NewLeaseWithinTotal(t, step, limits, i);
        }
      }
    }
  }

  lemma LeasesCountInFull(s: State, limits: Limits, i: nat)
    requires Inv(s, limits) && i < |s.ops| && Leased(s.ops[i])
    ensures Weight(s, s.ops[i].key, limits) == limits.repository
  {
    HolderView(s, i);
    HolderSettles(s, s, i, s.ops[i].key);
  }

  // The directories as they are, none counted for more than the limit per repository, fit too.
  lemma DiskWithinTotal(s: State, limits: Limits)
    requires Inv(s, limits) && WithinTotal(s, limits)
    ensures Sum(map k | k in s.disk && Capped(s, k, limits) > 0 :: Capped(s, k, limits)) <= limits.total
  {
    var used := map k | k in s.disk && Capped(s, k, limits) > 0 :: Capped(s, k, limits);
    forall k | k in used ensures k in Committed(s, limits) && used[k] <= Committed(s, limits)[k] {
      assert Capped(s, k, limits) <= SizeOf(s, k);
    }
    SumMonotone(used, Committed(s, limits));
  }

  // ---- The removal that does not fit ----

  lemma Extended(s: State, steps: seq<Step>, t: State, step: Step, limits: Limits) returns (longer: seq<Step>)
    requires Run(s, steps, limits) == t
    ensures Run(s, longer, limits) == Do(t, step, limits)
  {
    longer := steps + [step];
    assert longer[..|longer| - 1] == steps;
  }

  const TEN := Limits(10, 10)
  const FULL: map<Key, nat> := map["a" := 10]
  const OVER: map<Key, nat> := map["a" := 10, "b" := 10]

  lemma FullAndOver()
    ensures Sum(FULL) == 10 && Sum(OVER) == 20
  {
    SumSplit(FULL, "a");
    assert FULL - {"a"} == map[];
    SumSplit(OVER, "b");
    assert OVER - {"b"} == FULL;
  }

  // The second acquire of the scene, at one of its phases.
  function Scene(phase: Phase, tails: map<Key, Promise>): State
  {
    State([Op("a", Preparing), Op("b", phase)], tails, OVER, {"a", "b"}, map[], false)
  }

  lemma FirstLease() returns (steps: seq<Step>)
    ensures Run(State([], map[], map[], {}, map[], false), steps, TEN)
         == State([Op("a", Preparing)], map["a" := OfAcquire(0)], FULL, {"a"}, map[], false)
  {
    FullAndOver();
    var empty := State([], map[], map[], {}, map[], false);
    var waiting := State([Op("a", Waiting(None))], map["a" := OfAcquire(0)], map[], {}, map[], false);
    assert Run(empty, [], TEN) == empty && Do(empty, DoAcquire("a"), TEN) == waiting;
    steps := Extended(empty, [], empty, DoAcquire("a"), TEN);
    steps := Extended(empty, steps, waiting, DoResume(0, false), TEN);
    assert map[]["a" := 10] == FULL;
  }

  lemma SecondIsRefused(one: State)
    requires one == State([Op("a", Preparing)], map["a" := OfAcquire(0)], FULL, {"a"}, map[], false)
    ensures var tails := map["a" := OfAcquire(0), "b" := OfAcquire(1)];
      Do(Do(one, DoAcquire("b"), TEN), DoResume(1, false), TEN) == Scene(Statting({}), tails)
  {
    FullAndOver();
    var tails := map["a" := OfAcquire(0), "b" := OfAcquire(1)];
    var waiting := Do(one, DoAcquire("b"), TEN);
    assert waiting == State([Op("a", Preparing), Op("b", Waiting(None))], tails, FULL, {"a"}, map[], false);
    assert FULL["b" := 10] == OVER;
    var reserved := Reserve(waiting, "b", TEN);
    assert reserved.sizes == OVER && reserved.active == {"a", "b"} && Candidates(reserved) == {};
  }

  lemma NothingToEvict(tails: map<Key, Promise>)
    ensures Do(Scene(Statting({}), tails), DoStatted(1, Some([])), TEN) == Scene(Measuring(Reserved), tails)
    ensures Do(Scene(Measuring(Reserved), tails), DoMeasured(1, false), TEN) == Scene(Removing(Reserved), tails)
  {
    FullAndOver();
  }

  lemma RemovalOverflows(tails: map<Key, Promise>)
    ensures var t := Do(Scene(Removing(Reserved), tails), DoRemoved(1, false, 0), TEN);
      t.ops == [Op("a", Preparing), Op("b", Finished)] && !WithinTotal(t, TEN)
  {
    FullAndOver();
    var t := Do(Scene(Removing(Reserved), tails), DoRemoved(1, false, 0), TEN);
    assert t.ops == [Op("a", Preparing), Op("b", Finished)] && t.sizes == OVER;
    forall k ensures !Unsettled(t, k) {}
    assert Committed(t, TEN) == OVER;
  }

  // A lease takes the whole total, a second acquire is refused, and its directory cannot be
  // removed: the refused one is then recorded at the full limit although the lease still runs.
  lemma FailedRemovalOverflows() returns (s: State, steps: seq<Step>)
    ensures Opened(s)
    ensures var t := Run(s, steps, TEN); |t.ops| == 2 && Leased(t.ops[0]) && t.ops[1].phase.Finished?
    ensures !WithinTotal(Run(s, steps, TEN), TEN)
  {
    s := State([], map[], map[], {}, map[], false);
    steps := FirstLease();
    var one := Run(s, steps, TEN);
    SecondIsRefused(one);
    var tails := map["a" := OfAcquire(0), "b" := OfAcquire(1)];
    NothingToEvict(tails);
    RemovalOverflows(tails);
    steps := Extended(s, steps, one, DoAcquire("b"), TEN);
    steps := Extended(s, steps, Do(one, DoAcquire("b"), TEN), DoResume(1, false), TEN);
    steps := Extended(s, steps, Scene(Statting({}), tails), DoStatted(1, Some([])), TEN);
    steps := Extended(s, steps, Scene(Measuring(Reserved), tails), DoMeasured(1, false), TEN);
    steps := Extended(s, steps, Scene(Removing(Reserved), tails), DoRemoved(1, false, 0), TEN);
  }
}
