// The Git cache between its awaits: acquire, eviction and release of directories under a
// limit per repository and a total limit (src/git/git-cache.ts).
module GitCache {
  import opened Options
  import opened CacheLocks

  datatype Limits = Limits(repository: nat, total: nat)

  // What a failed or finished acquire leaves behind in `sizes` when its release starts:
  // a reservation the total was never checked for, or a recorded size.
  datatype Stake = Reserved | Recorded

  // Where an acquire is suspended.
  datatype Phase =
    | Waiting(prior: Option<Promise>)
    | Statting(candidates: set<Key>)
    | Deleting(id: Key, rest: seq<Key>)
    | Preparing
    | Granted
    | Measuring(stake: Stake)
    | Touching
    | Removing(stake: Stake)
    | Finished

  datatype Op = Op(key: Key, phase: Phase)

  // `disk` holds the directories and their true sizes.
  datatype State = State(
    ops: seq<Op>, tails: map<Key, Promise>, sizes: map<Key, nat>, active: set<Key>,
    disk: map<Key, nat>, closed: bool)

  // ---- Sums ----

  ghost function Sum(m: map<Key, nat>): nat
    decreases |m|
  {
    if m == map[] then 0
    else
      var k :| k in m;
      assert |m - {k}| < |m| by { assert m == (m - {k})[k := m[k]]; }
      m[k] + Sum(m - {k})
  }

  lemma {:induction false} SumSplit(m: map<Key, nat>, k: Key)
    requires k in m
    ensures Sum(m) == m[k] + Sum(m - {k})
    decreases |m|
  {
    var c: Key :| c in m && Sum(m) == m[c] + Sum(m - {c});
    assert |m - {c}| < |m| by { assert m == (m - {c})[c := m[c]]; }
    if c != k {
      SumSplit(m - {c}, k);
      assert m - {c} - {k} == m - {k} - {c};
      assert |m - {k}| < |m| by { assert m == (m - {k})[k := m[k]]; }
      SumSplit(m - {k}, c);
    }
  }

  lemma {:induction false} SumMonotone(a: map<Key, nat>, b: map<Key, nat>)
    requires forall k | k in a :: k in b && a[k] <= b[k]
    ensures Sum(a) <= Sum(b)
    decreases |a|
  {
    if a != map[] {
      var k :| k in a;
      assert |a - {k}| < |a| by { assert a == (a - {k})[k := a[k]]; }
      SumSplit(a, k);
      SumSplit(b, k);
      SumMonotone(a - {k}, b - {k});
    }
  }

  // ---- The steps ----

  function StageOf(phase: Phase): Stage
  {
    match phase
    case Waiting(prior) => Queued(prior)
    case Deleting(id, _) => Evicting(id)
    case Finished => Over
    case _ => Holding
  }

  function LocksOf(s: State): (l: Locks)
    ensures |l.tickets| == |s.ops| && l.tails == s.tails
    ensures forall i | 0 <= i < |s.ops| :: l.tickets[i] == Ticket(s.ops[i].key, StageOf(s.ops[i].phase))
  {
    Locks(seq(|s.ops|, i requires 0 <= i < |s.ops| => Ticket(s.ops[i].key, StageOf(s.ops[i].phase))), s.tails)
  }

  function SetPhase(s: State, i: nat, phase: Phase): State
    requires i < |s.ops|
  {
    s.(ops := s.ops[i := s.ops[i].(phase := phase)])
  }

  function Acquire(s: State, key: Key): State
  {
    if s.closed then s
    else s.(ops := s.ops + [Op(key, Waiting(if key in s.tails then Some(s.tails[key]) else None))],
            tails := s.tails[key := OfAcquire(|s.ops|)])
  }

  // The check that grants the lease.
  ghost function Conclude(s: State, i: nat, limits: Limits): State
    requires i < |s.ops|
  {
    SetPhase(s, i, if Sum(s.sizes) > limits.total then Measuring(Reserved) else Preparing)
  }

  function Reserve(s: State, key: Key, limits: Limits): State
  {
    s.(active := s.active + {key}, sizes := s.sizes[key := limits.repository])
  }

  function Candidates(s: State): set<Key>
  {
    set k | k in s.sizes && k !in s.active && k !in s.tails
  }

  ghost function Resume(s: State, i: nat, cancelled: bool, limits: Limits): State
    requires i < |s.ops| && s.ops[i].phase.Waiting?
  {
    if s.closed || cancelled then SetPhase(s, i, Measuring(Recorded))
    else
      var t := Reserve(s, s.ops[i].key, limits);
      SetPhase(t, i, if Sum(t.sizes) > limits.total then Statting(Candidates(t)) else Preparing)
  }

  // The next candidate that nobody wants in the meantime; without one the sum decides.
  ghost function NextVictim(s: State, i: nat, queue: seq<Key>, limits: Limits): State
    requires i < |s.ops|
    decreases |queue|
  {
    if queue == [] then Conclude(s, i, limits)
    else if queue[0] in s.active || queue[0] in s.tails then NextVictim(s, i, queue[1..], limits)
    else
      SetPhase(s, i, Deleting(queue[0], queue[1..])).(
        active := s.active + {queue[0]}, tails := s.tails[queue[0] := OfDeletion(i)])
  }

  // The candidates come back in the order of their modification times, or a stat failed.
  ghost function Statted(s: State, i: nat, order: Option<seq<Key>>, limits: Limits): State
    requires i < |s.ops| && s.ops[i].phase.Statting?
  {
    match order
    case None => SetPhase(s, i, Measuring(Reserved))
    case Some(queue) =>
      if multiset(queue) == multiset(s.ops[i].phase.candidates) then NextVictim(s, i, queue, limits) else s
  }

  // A failed removal may leave a part of the directory.
  function Shrunk(disk: map<Key, nat>, key: Key, left: nat): map<Key, nat>
  {
    if key in disk && left <= disk[key] then disk[key := left] else disk
  }

  // The end of a deletion, before the loop goes on.
  function Deleted(s: State, i: nat, ok: bool, left: nat): State
    requires i < |s.ops| && s.ops[i].phase.Deleting?
  {
    var id := s.ops[i].phase.id;
    s.(active := s.active - {id}, tails := WithoutTail(s.tails, id, OfDeletion(i)),
       sizes := if ok then s.sizes - {id} else s.sizes,
       disk := if ok then s.disk - {id} else Shrunk(s.disk, id, left))
  }

  ghost function AfterDeletion(s: State, i: nat, ok: bool, left: nat, limits: Limits): State
    requires i < |s.ops| && s.ops[i].phase.Deleting?
  {
    var t, rest := Deleted(s, i, ok, left), s.ops[i].phase.rest;
    if !ok then SetPhase(t, i, Measuring(Reserved))
    else if Sum(t.sizes) <= limits.total then SetPhase(t, i, Preparing)
    else NextVictim(t, i, rest, limits)
  }

  // mkdir and the check that the directory is one.
  function Prepared(s: State, i: nat, ok: bool): State
    requires i < |s.ops| && s.ops[i].phase.Preparing?
  {
    var key := s.ops[i].key;
    if ok then SetPhase(s, i, Granted).(disk := if key in s.disk then s.disk else s.disk[key := 0])
    else SetPhase(s, i, Measuring(Recorded))
  }

  // The holder of the lease writes as much as it likes.
  function Work(s: State, i: nat, bytes: nat): State
    requires i < |s.ops| && s.ops[i].phase.Granted?
  {
    s.(disk := s.disk[s.ops[i].key := bytes])
  }

  function Finish(s: State, i: nat): State
    requires i < |s.ops|
  {
    var key := s.ops[i].key;
    SetPhase(s, i, Finished).(active := s.active - {key}, tails := WithoutTail(s.tails, key, OfAcquire(i)))
  }

  function Measured(s: State, i: nat, ok: bool, limits: Limits): State
    requires i < |s.ops| && s.ops[i].phase.Measuring?
  {
    var key := s.ops[i].key;
    if ok && key in s.disk && s.disk[key] <= limits.repository
    then SetPhase(s, i, Touching).(sizes := s.sizes[key := s.disk[key]])
    else SetPhase(s, i, Removing(s.ops[i].phase.stake))
  }

  function Touched(s: State, i: nat, ok: bool): State
    requires i < |s.ops| && s.ops[i].phase.Touching?
  {
    if ok then Finish(s, i) else SetPhase(s, i, Removing(Recorded))
  }

  function Removed(s: State, i: nat, ok: bool, left: nat, limits: Limits): State
    requires i < |s.ops| && s.ops[i].phase.Removing?
  {
    var key := s.ops[i].key;
    Finish(if ok then s.(sizes := s.sizes - {key}, disk := s.disk - {key})
           else s.(sizes := s.sizes[key := limits.repository], disk := Shrunk(s.disk, key, left)), i)
  }

  datatype Step =
    | DoAcquire(key: Key)
    | DoResume(i: nat, cancelled: bool)
    | DoStatted(i: nat, order: Option<seq<Key>>)
    | DoDeleted(i: nat, ok: bool, left: nat)
    | DoPrepared(i: nat, ok: bool)
    | DoWork(i: nat, bytes: nat)
    | DoRelease(i: nat)
    | DoMeasured(i: nat, ok: bool)
    | DoTouched(i: nat, ok: bool)
    | DoRemoved(i: nat, ok: bool, left: nat)
    | DoClose

  predicate Enabled(s: State, step: Step)
  {
    match step
    case DoAcquire(_) => true
    case DoClose => true
    case DoResume(i, _) =>
      i < |s.ops| && s.ops[i].phase.Waiting? && CacheLocks.Resolved(LocksOf(s), s.ops[i].phase.prior, s.ops[i].key)
    case DoStatted(i, _) => i < |s.ops| && s.ops[i].phase.Statting?
    case DoDeleted(i, _, _) => i < |s.ops| && s.ops[i].phase.Deleting?
    case DoPrepared(i, _) => i < |s.ops| && s.ops[i].phase.Preparing?
    case DoWork(i, _) => i < |s.ops| && s.ops[i].phase.Granted?
    case DoRelease(i) => i < |s.ops| && s.ops[i].phase.Granted?
    case DoMeasured(i, _) => i < |s.ops| && s.ops[i].phase.Measuring?
    case DoTouched(i, _) => i < |s.ops| && s.ops[i].phase.Touching?
    case DoRemoved(i, _, _) => i < |s.ops| && s.ops[i].phase.Removing?
  }

  ghost function Do(s: State, step: Step, limits: Limits): State
  {
    if !Enabled(s, step) then s
    else match step
      case DoAcquire(key) => Acquire(s, key)
      case DoClose => s.(closed := true)
      case DoResume(i, cancelled) => Resume(s, i, cancelled, limits)
      case DoStatted(i, order) => Statted(s, i, order, limits)
      case DoDeleted(i, ok, left) => AfterDeletion(s, i, ok, left, limits)
      case DoPrepared(i, ok) => Prepared(s, i, ok)
      case DoWork(i, bytes) => Work(s, i, bytes)
      case DoRelease(i) => SetPhase(s, i, Measuring(Recorded))
      case DoMeasured(i, ok) => Measured(s, i, ok, limits)
      case DoTouched(i, ok) => Touched(s, i, ok)
      case DoRemoved(i, ok, left) => Removed(s, i, ok, left, limits)
  }

  ghost function Run(s: State, steps: seq<Step>, limits: Limits): State
  {
    if steps == [] then s else Do(Run(s, steps[..|steps| - 1], limits), steps[|steps| - 1], limits)
  }

  // A cache just opened: the sizes of the directories found.
  predicate Opened(s: State)
  {
    s.ops == [] && s.tails == map[] && s.active == {} && !s.closed && s.sizes == s.disk
  }

  // ---- The invariant ----

  function Capped(s: State, key: Key, limits: Limits): nat
  {
    if key !in s.disk then 0 else if s.disk[key] <= limits.repository then s.disk[key] else limits.repository
  }

  function SizeOf(s: State, key: Key): nat { if key in s.sizes then s.sizes[key] else 0 }

  // Phases that began with a reservation and have not recorded a size yet.
  predicate Charged(phase: Phase)
  {
    Unchecked(phase) || phase.Preparing? || phase.Granted?
  }

  // Phases whose reservation the total was not checked for.
  predicate Unchecked(phase: Phase)
  {
    phase.Statting? || phase.Deleting? || phase == Measuring(Reserved) || phase == Removing(Reserved)
  }

  ghost predicate ActiveFine(s: State) { forall k | k in s.active :: k in s.tails }

  // A recorded size covers what is on the disk, up to the limit per repository.
  ghost predicate SizesFine(s: State, limits: Limits) { forall k :: Capped(s, k, limits) <= SizeOf(s, k) }

  ghost predicate ChargesFine(s: State, limits: Limits)
  {
    forall i | 0 <= i < |s.ops| && Charged(s.ops[i].phase) :: SizeOf(s, s.ops[i].key) == limits.repository && s.ops[i].key in s.sizes
  }

  ghost predicate Inv(s: State, limits: Limits)
  {
    LockInv(LocksOf(s)) && ActiveFine(s) && SizesFine(s, limits) && ChargesFine(s, limits)
  }

  // ---- The waiting lines are kept ----

  lemma {:induction false} NextVictimLocks(s: State, i: nat, queue: seq<Key>, limits: Limits)
    requires i < |s.ops| && LockInv(Staged(LocksOf(s), i, Holding))
    ensures LockInv(LocksOf(NextVictim(s, i, queue, limits)))
    decreases |queue|
  {
    var l := Staged(LocksOf(s), i, Holding);
    if queue == [] {
      assert LocksOf(Conclude(s, i, limits)) == l;
    } else if queue[0] in s.active || queue[0] in s.tails {
      NextVictimLocks(s, i, queue[1..], limits);
    } else {
      StartEvictionKeeps(l, i, queue[0]);
      assert LocksOf(NextVictim(s, i, queue, limits)) == StartEviction(l, i, queue[0]);
    }
  }

  lemma ResumeLocks(s: State, i: nat, cancelled: bool, limits: Limits)
    requires LockInv(LocksOf(s)) && Enabled(s, DoResume(i, cancelled))
    ensures LockInv(Staged(LocksOf(s), i, Holding))
    ensures LocksOf(Resume(s, i, cancelled, limits)) == Staged(LocksOf(s), i, Holding)
  {
    StartKeeps(LocksOf(s), i);
  }

  lemma DeletionLocks(s: State, i: nat, ok: bool, left: nat, limits: Limits)
    requires LockInv(LocksOf(s)) && i < |s.ops| && s.ops[i].phase.Deleting?
    ensures LockInv(Staged(LocksOf(Deleted(s, i, ok, left)), i, Holding))
    ensures LockInv(LocksOf(AfterDeletion(s, i, ok, left, limits)))
  {
    var l, id, t := LocksOf(s), s.ops[i].phase.id, Deleted(s, i, ok, left);
    EndEvictionKeeps(l, i, id);
    assert Staged(LocksOf(t), i, Holding) == EndEviction(l, i, id);
    assert LocksOf(SetPhase(t, i, Preparing)) == EndEviction(l, i, id);
    assert LocksOf(SetPhase(t, i, Measuring(Reserved))) == EndEviction(l, i, id);
    NextVictimLocks(t, i, s.ops[i].phase.rest, limits);
  }

  lemma FinishLocks(s: State, i: nat)
    requires LockInv(LocksOf(s)) && i < |s.ops| && StageOf(s.ops[i].phase).Holding?
    ensures LockInv(LocksOf(Finish(s, i)))
  {
    LeaveKeeps(LocksOf(s), i);
    assert LocksOf(Finish(s, i)) == Leave(LocksOf(s), i);
  }

  lemma SameLocks(s: State, s': State)
    requires LockInv(LocksOf(s)) && s'.tails == s.tails && |s'.ops| == |s.ops|
    requires forall i | 0 <= i < |s.ops| ::
      s'.ops[i].key == s.ops[i].key && StageOf(s'.ops[i].phase) == StageOf(s.ops[i].phase)
    ensures LockInv(LocksOf(s'))
  {
    assert LocksOf(s') == LocksOf(s);
  }

  lemma StattedLocks(s: State, i: nat, order: Option<seq<Key>>, limits: Limits)
    requires LockInv(LocksOf(s)) && i < |s.ops| && s.ops[i].phase.Statting?
    ensures LockInv(LocksOf(Statted(s, i, order, limits)))
  {
    assert Staged(LocksOf(s), i, Holding) == LocksOf(s);
    SameLocks(s, SetPhase(s, i, Measuring(Reserved)));
    if order.Some? { NextVictimLocks(s, i, order.value, limits); }
  }

  lemma LeaseLocks(s: State, step: Step, limits: Limits)
    requires LockInv(LocksOf(s)) && Enabled(s, step)
    requires step.DoPrepared? || step.DoWork? || step.DoRelease? || step.DoMeasured?
    ensures LockInv(LocksOf(Do(s, step, limits)))
  {
    SameLocks(s, Do(s, step, limits));
  }

  lemma StepLocks(s: State, step: Step, limits: Limits)
    requires LockInv(LocksOf(s))
    ensures LockInv(LocksOf(Do(s, step, limits)))
  {
    if Enabled(s, step) {
      match step
      case DoAcquire(key) =>
        EnterKeeps(LocksOf(s), key);
        assert s.closed || LocksOf(Acquire(s, key)) == Enter(LocksOf(s), key);
      case DoResume(i, cancelled) => ResumeLocks(s, i, cancelled, limits);
      case DoDeleted(i, ok, left) => DeletionLocks(s, i, ok, left, limits);
      case DoStatted(i, order) => StattedLocks(s, i, order, limits);
      case DoTouched(i, ok) => TouchLocks(s, i, ok);
      case DoRemoved(i, ok, left) => RemoveLocks(s, i, ok, left, limits);
      case DoClose => SameLocks(s, s.(closed := true));
      case _ => LeaseLocks(s, step, limits);
    }
  }

  lemma TouchLocks(s: State, i: nat, ok: bool)
    requires LockInv(LocksOf(s)) && i < |s.ops| && s.ops[i].phase.Touching?
    ensures LockInv(LocksOf(Touched(s, i, ok)))
  {
    FinishLocks(s, i);
    SameLocks(s, SetPhase(s, i, Removing(Recorded)));
  }

  lemma RemoveLocks(s: State, i: nat, ok: bool, left: nat, limits: Limits)
    requires LockInv(LocksOf(s)) && i < |s.ops| && s.ops[i].phase.Removing?
    ensures LockInv(LocksOf(Removed(s, i, ok, left, limits)))
  {
    var key := s.ops[i].key;
    var t := if ok then s.(sizes := s.sizes - {key}, disk := s.disk - {key})
             else s.(sizes := s.sizes[key := limits.repository], disk := Shrunk(s.disk, key, left));
    SameLocks(s, t);
    FinishLocks(t, i);
  }

  // ---- The other invariants are kept ----

  lemma OthersAreNotCharged(s: State, i: nat, j: nat)
    requires i < |s.ops| && j < |s.ops| && i != j && s.ops[i].key == s.ops[j].key
    requires LockInv(Staged(LocksOf(s), i, Holding))
    ensures !Charged(s.ops[j].phase)
  {
    var l := Staged(LocksOf(s), i, Holding);
    if Charged(s.ops[j].phase) {
      assert l.tickets[j] == LocksOf(s).tickets[j];
      MutualExclusion(l, i, j);
    }
  }

  lemma HolderView(s: State, i: nat)
    requires LockInv(LocksOf(s)) && i < |s.ops| && StageOf(s.ops[i].phase).Holding?
    ensures LockInv(Staged(LocksOf(s), i, Holding))
  {
    assert Staged(LocksOf(s), i, Holding) == LocksOf(s);
  }

  lemma EvictedIsNotCharged(s: State, d: nat, j: nat)
    requires LockInv(LocksOf(s)) && d < |s.ops| && j < |s.ops| && s.ops[d].phase.Deleting? && s.ops[d].phase.id == s.ops[j].key
    ensures !Charged(s.ops[j].phase)
  {
    if Charged(s.ops[j].phase) { EvictedIsUnheld(LocksOf(s), d, j); }
  }

  // What the eviction loop may change.
  lemma {:induction false} NextVictimEffect(s: State, i: nat, queue: seq<Key>, limits: Limits)
    requires i < |s.ops|
    ensures var t := NextVictim(s, i, queue, limits);
      && t.sizes == s.sizes && t.disk == s.disk && t.closed == s.closed
      && |t.ops| == |s.ops| && t.ops == s.ops[i := s.ops[i].(phase := t.ops[i].phase)]
      && (t.ops[i].phase.Preparing? ==> Sum(t.sizes) <= limits.total)
      && (Unchecked(t.ops[i].phase) || t.ops[i].phase.Preparing?)
      && (ActiveFine(s) ==> ActiveFine(t))
    decreases |queue|
  {
    if queue != [] && (queue[0] in s.active || queue[0] in s.tails) { NextVictimEffect(s, i, queue[1..], limits); }
  }

  // One acquire moves on and the size of one key changes.
  ghost predicate OneKey(s: State, s': State, i: nat, key: Key)
    requires i < |s.ops|
  {
    && |s'.ops| == |s.ops| && s'.ops == s.ops[i := s'.ops[i]] && s'.ops[i].key == s.ops[i].key
    && s'.sizes - {key} == s.sizes - {key} && s'.disk - {key} == s.disk - {key}
  }

  lemma OtherKeysSame(s: State, s': State, i: nat, key: Key, k: Key)
    requires i < |s.ops| && OneKey(s, s', i, key) && k != key
    ensures k in s'.sizes <==> k in s.sizes
    ensures k in s'.disk <==> k in s.disk
    ensures k in s.sizes ==> s'.sizes[k] == s.sizes[k]
    ensures k in s.disk ==> s'.disk[k] == s.disk[k]
  {
    assert k in s'.sizes <==> k in s'.sizes - {key};
    assert k in s.sizes <==> k in s.sizes - {key};
    assert k in s'.disk <==> k in s'.disk - {key};
    assert k in s.disk <==> k in s.disk - {key};
    assert k in s.sizes ==> (s.sizes - {key})[k] == s.sizes[k] && (s'.sizes - {key})[k] == s'.sizes[k];
    assert k in s.disk ==> (s.disk - {key})[k] == s.disk[k] && (s'.disk - {key})[k] == s'.disk[k];
  }

  lemma OneKeyKeeps(s: State, s': State, i: nat, key: Key, limits: Limits)
    requires i < |s.ops| && SizesFine(s, limits) && ChargesFine(s, limits) && OneKey(s, s', i, key)
    requires Capped(s', key, limits) <= SizeOf(s', key)
    requires Charged(s'.ops[i].phase) ==> SizeOf(s', s.ops[i].key) == limits.repository && s.ops[i].key in s'.sizes
    requires forall j | 0 <= j < |s.ops| && j != i && s.ops[j].key == key ::
      Charged(s.ops[j].phase) ==> s'.sizes == s.sizes
    ensures SizesFine(s', limits) && ChargesFine(s', limits)
  {
    forall k ensures Capped(s', k, limits) <= SizeOf(s', k) {
      if k != key { OtherKeysSame(s, s', i, key, k); }
      assert Capped(s, k, limits) <= SizeOf(s, k);
    }
    forall j | 0 <= j < |s'.ops| && Charged(s'.ops[j].phase)
      ensures SizeOf(s', s'.ops[j].key) == limits.repository && s'.ops[j].key in s'.sizes
    {
      if j != i && s.ops[j].key != key { OtherKeysSame(s, s', i, key, s.ops[j].key); }
    }
  }

  lemma ResumeKeeps(s: State, i: nat, cancelled: bool, limits: Limits)
    requires Inv(s, limits) && Enabled(s, DoResume(i, cancelled))
    ensures Inv(Resume(s, i, cancelled, limits), limits)
    ensures OneKey(s, Resume(s, i, cancelled, limits), i, s.ops[i].key)
  {
    var s', key := Resume(s, i, cancelled, limits), s.ops[i].key;
    ResumeLocks(s, i, cancelled, limits);
    WantedHasTail(LocksOf(s), i);
    forall j | 0 <= j < |s.ops| && j != i && s.ops[j].key == key ensures !Charged(s.ops[j].phase) {
      OthersAreNotCharged(s, i, j);
    }
    assert Capped(s, key, limits) <= SizeOf(s, key);
    OneKeyKeeps(s, s', i, key, limits);
  }

  lemma StattedKeeps(s: State, i: nat, order: Option<seq<Key>>, limits: Limits)
    requires Inv(s, limits) && i < |s.ops| && s.ops[i].phase.Statting?
    ensures Inv(Statted(s, i, order, limits), limits)
    ensures OneKey(s, Statted(s, i, order, limits), i, s.ops[i].key)
  {
    var key, s' := s.ops[i].key, Statted(s, i, order, limits);
    StepLocks(s, DoStatted(i, order), limits);
    assert Do(s, DoStatted(i, order), limits) == s';
    if order.Some? { NextVictimEffect(s, i, order.value, limits); }
    assert Capped(s, key, limits) <= SizeOf(s, key);
    OneKeyKeeps(s, s', i, key, limits);
  }

  lemma DeletedKeeps(s: State, i: nat, ok: bool, left: nat, limits: Limits)
    requires Inv(s, limits) && i < |s.ops| && s.ops[i].phase.Deleting?
    ensures var t := Deleted(s, i, ok, left);
      ActiveFine(t) && SizesFine(t, limits) && ChargesFine(t, limits) && OneKey(s, t, i, s.ops[i].phase.id)
  {
    var t, id := Deleted(s, i, ok, left), s.ops[i].phase.id;
    forall j | 0 <= j < |s.ops| && s.ops[j].key == id ensures !Charged(s.ops[j].phase) {
      EvictedIsNotCharged(s, i, j);
    }
    assert Capped(s, id, limits) <= SizeOf(s, id);
    assert ChargesFine(s, limits) && s.ops[i].key != id;
    OtherKeysSame(s, t, i, id, s.ops[i].key);
    OneKeyKeeps(s, t, i, id, limits);
  }

  lemma PhaseKeeps(s: State, i: nat, phase: Phase, limits: Limits)
    requires i < |s.ops| && SizesFine(s, limits) && ChargesFine(s, limits) && Charged(s.ops[i].phase)
    ensures SizesFine(SetPhase(s, i, phase), limits) && ChargesFine(SetPhase(s, i, phase), limits)
  {
    var key := s.ops[i].key;
    assert Capped(s, key, limits) <= SizeOf(s, key);
    OneKeyKeeps(s, SetPhase(s, i, phase), i, key, limits);
  }

  lemma AfterDeletionKeeps(s: State, i: nat, ok: bool, left: nat, limits: Limits)
    requires Inv(s, limits) && i < |s.ops| && s.ops[i].phase.Deleting?
    ensures Inv(AfterDeletion(s, i, ok, left, limits), limits)
    ensures OneKey(s, AfterDeletion(s, i, ok, left, limits), i, s.ops[i].phase.id)
  {
    var t, s' := Deleted(s, i, ok, left), AfterDeletion(s, i, ok, left, limits);
    DeletionLocks(s, i, ok, left, limits);
    DeletedKeeps(s, i, ok, left, limits);
    NextVictimEffect(t, i, s.ops[i].phase.rest, limits);
    PhaseKeeps(t, i, s'.ops[i].phase, limits);
    assert SetPhase(t, i, s'.ops[i].phase).ops == s'.ops;
    SameBooks(SetPhase(t, i, s'.ops[i].phase), s', limits);
  }

  lemma SameBooks(s: State, s': State, limits: Limits)
    requires SizesFine(s, limits) && ChargesFine(s, limits)
    requires s'.ops == s.ops && s'.sizes == s.sizes && s'.disk == s.disk
    ensures SizesFine(s', limits) && ChargesFine(s', limits)
  {
    forall k ensures Capped(s', k, limits) <= SizeOf(s', k) { assert Capped(s, k, limits) <= SizeOf(s, k); }
  }

  // A step of the one who holds the key, on its own key.
  lemma HolderKeeps(s: State, s': State, i: nat, limits: Limits)
    requires Inv(s, limits) && i < |s.ops| && StageOf(s.ops[i].phase).Holding? && OneKey(s, s', i, s.ops[i].key)
    requires LockInv(LocksOf(s')) && ActiveFine(s')
    requires Capped(s', s.ops[i].key, limits) <= SizeOf(s', s.ops[i].key)
    requires Charged(s'.ops[i].phase) ==> SizeOf(s', s.ops[i].key) == limits.repository && s.ops[i].key in s'.sizes
    ensures Inv(s', limits)
  {
    HolderView(s, i);
    forall j | 0 <= j < |s.ops| && j != i && s.ops[j].key == s.ops[i].key ensures !Charged(s.ops[j].phase) {
      OthersAreNotCharged(s, i, j);
    }
    OneKeyKeeps(s, s', i, s.ops[i].key, limits);
  }

  lemma LeaseKeeps(s: State, step: Step, limits: Limits)
    requires Inv(s, limits) && Enabled(s, step)
    requires step.DoPrepared? || step.DoWork? || step.DoRelease?
    ensures Inv(Do(s, step, limits), limits)
    ensures OneKey(s, Do(s, step, limits), step.i, s.ops[step.i].key)
  {
    var s', i := Do(s, step, limits), step.i;
    LeaseLocks(s, step, limits);
    assert Capped(s, s.ops[i].key, limits) <= SizeOf(s, s.ops[i].key);
    HolderKeeps(s, s', i, limits);
  }

  lemma MeasuredKeeps(s: State, i: nat, ok: bool, limits: Limits)
    requires Inv(s, limits) && i < |s.ops| && s.ops[i].phase.Measuring?
    ensures Inv(Measured(s, i, ok, limits), limits)
    ensures OneKey(s, Measured(s, i, ok, limits), i, s.ops[i].key)
  {
    var s' := Measured(s, i, ok, limits);
    SameLocks(s, s');
    assert Capped(s, s.ops[i].key, limits) <= SizeOf(s, s.ops[i].key);
    HolderKeeps(s, s', i, limits);
  }

  lemma TouchedKeeps(s: State, i: nat, ok: bool, limits: Limits)
    requires Inv(s, limits) && i < |s.ops| && s.ops[i].phase.Touching?
    ensures Inv(Touched(s, i, ok), limits)
    ensures OneKey(s, Touched(s, i, ok), i, s.ops[i].key)
  {
    TouchLocks(s, i, ok);
    assert Capped(s, s.ops[i].key, limits) <= SizeOf(s, s.ops[i].key);
    HolderKeeps(s, Touched(s, i, ok), i, limits);
  }

  lemma RemovedKeeps(s: State, i: nat, ok: bool, left: nat, limits: Limits)
    requires Inv(s, limits) && i < |s.ops| && s.ops[i].phase.Removing?
    ensures Inv(Removed(s, i, ok, left, limits), limits)
    ensures OneKey(s, Removed(s, i, ok, left, limits), i, s.ops[i].key)
  {
    RemoveLocks(s, i, ok, left, limits);
    HolderKeeps(s, Removed(s, i, ok, left, limits), i, limits);
  }

  lemma StepKeeps(s: State, step: Step, limits: Limits)
    requires Inv(s, limits)
    ensures Inv(Do(s, step, limits), limits)
  {
    if Enabled(s, step) {
      match step
      case DoAcquire(key) => AcquireKeeps(s, key, limits);
      case DoClose => CloseKeeps(s, limits);
      case DoResume(i, cancelled) => ResumeKeeps(s, i, cancelled, limits);
      case DoStatted(i, order) => StattedKeeps(s, i, order, limits);
      case DoDeleted(i, ok, left) => AfterDeletionKeeps(s, i, ok, left, limits);
      case DoMeasured(i, ok) => MeasuredKeeps(s, i, ok, limits);
      case DoTouched(i, ok) => TouchedKeeps(s, i, ok, limits);
      case DoRemoved(i, ok, left) => RemovedKeeps(s, i, ok, left, limits);
      case _ => LeaseKeeps(s, step, limits);
    }
  }

  lemma AcquireKeeps(s: State, key: Key, limits: Limits)
    requires Inv(s, limits)
    ensures Inv(Acquire(s, key), limits)
  {
    var s' := Acquire(s, key);
    StepLocks(s, DoAcquire(key), limits);
    assert Do(s, DoAcquire(key), limits) == s';
    forall k ensures Capped(s', k, limits) <= SizeOf(s', k) { assert Capped(s, k, limits) <= SizeOf(s, k); }
  }

  lemma CloseKeeps(s: State, limits: Limits)
    requires Inv(s, limits)
    ensures Inv(s.(closed := true), limits)
  {
    SameLocks(s, s.(closed := true));
    SameBooks(s, s.(closed := true), limits);
  }

  lemma OpenedIsFine(s: State, limits: Limits)
    requires Opened(s)
    ensures Inv(s, limits)
  {
    forall k ensures TailFine(LocksOf(s), k) {}
  }

  // Whatever the interleaving of acquires, evictions and releases, and whatever fails.
  lemma {:induction false} RunKeeps(s: State, steps: seq<Step>, limits: Limits)
    requires Opened(s)
    ensures Inv(Run(s, steps, limits), limits)
  {
    if steps == [] {
      OpenedIsFine(s, limits);
    } else {
      RunKeeps(s, steps[..|steps| - 1], limits);
      StepKeeps(Run(s, steps[..|steps| - 1], limits), steps[|steps| - 1], limits);
    }
  }

  // ---- At most one holder per key, and evictions that disturb nobody ----

  predicate HoldsKey(op: Op) { CacheLocks.Holds(Ticket(op.key, StageOf(op.phase))) }

  lemma OneHolderPerKey(s: State, steps: seq<Step>, limits: Limits, i: nat, j: nat)
    requires Opened(s)
    requires var t := Run(s, steps, limits); i < |t.ops| && j < |t.ops| && t.ops[i].key == t.ops[j].key
    requires var t := Run(s, steps, limits); HoldsKey(t.ops[i]) && HoldsKey(t.ops[j])
    ensures i == j
  {
    RunKeeps(s, steps, limits);
    MutualExclusion(LocksOf(Run(s, steps, limits)), i, j);
  }

  // While a directory is being evicted nobody holds it, and whoever wants it still waits.
  lemma EvictionDisturbsNobody(s: State, steps: seq<Step>, limits: Limits, d: nat, j: nat)
    requires Opened(s)
    requires var t := Run(s, steps, limits); d < |t.ops| && j < |t.ops| && t.ops[d].phase.Deleting?
    requires var t := Run(s, steps, limits); t.ops[d].phase.id == t.ops[j].key && !t.ops[j].phase.Finished?
    ensures var t := Run(s, steps, limits); t.ops[j].phase.Waiting? && forall cancelled :: !Enabled(t, DoResume(j, cancelled))
  {
    RunKeeps(s, steps, limits);
    EvictedIsUnheld(LocksOf(Run(s, steps, limits)), d, j);
  }

  // No acquire waits forever for nothing: behind it stands one that holds its key or may resume.
  lemma SomebodyCanMove(s: State, steps: seq<Step>, limits: Limits, j: nat) returns (i: nat)
    requires Opened(s)
    requires var t := Run(s, steps, limits); j < |t.ops| && !t.ops[j].phase.Finished?
    ensures var t := Run(s, steps, limits);
      i < |t.ops| && (HoldsKey(t.ops[i]) || (t.ops[i].phase.Waiting? && Enabled(t, DoResume(i, false))))
  {
    RunKeeps(s, steps, limits);
    i := NoDeadlock(LocksOf(Run(s, steps, limits)), j);
  }
}
