// Whom the Git cache evicts, and when it stops: the loop of src/git/git-cache.ts over its
// candidates, said of one step between two awaits.
module GitCacheEviction {
  import opened Options
  import opened CacheLocks
  import opened GitCache

  // Nobody holds, wants or evicts the directory.
  predicate Idle(s: State, key: Key) { key !in s.active && key !in s.tails }

  predicate AnyIdle(s: State, queue: seq<Key>) { exists n :: 0 <= n < |queue| && Idle(s, queue[n]) }

  // The victim is the first idle directory of the queue, and the rest of the queue is kept.
  ghost predicate FirstIdle(s: State, queue: seq<Key>, phase: Phase)
  {
    phase.Deleting?
    && exists n :: 0 <= n < |queue| && queue[n] == phase.id && Idle(s, queue[n]) && phase.rest == queue[n + 1..]
         && forall m | 0 <= m < n :: !Idle(s, queue[m])
  }

  lemma {:induction false} NextVictimExactly(s: State, i: nat, queue: seq<Key>, limits: Limits)
    requires i < |s.ops|
    ensures var s' := NextVictim(s, i, queue, limits);
      && |s'.ops| == |s.ops| && s'.sizes == s.sizes
      && (AnyIdle(s, queue) ==> FirstIdle(s, queue, s'.ops[i].phase))
      && (!AnyIdle(s, queue) ==> s' == Conclude(s, i, limits))
    decreases |queue|
  {
    if queue != [] {
      AnyIdleTail(s, queue);
      if Idle(s, queue[0]) {
        assert queue[0] == NextVictim(s, i, queue, limits).ops[i].phase.id;
      } else {
        NextVictimExactly(s, i, queue[1..], limits);
        if AnyIdle(s, queue[1..]) { FirstIdleTail(s, queue, NextVictim(s, i, queue, limits).ops[i].phase); }
      }
    }
  }

  lemma AnyIdleTail(s: State, queue: seq<Key>)
    requires queue != []
    ensures AnyIdle(s, queue) <==> Idle(s, queue[0]) || AnyIdle(s, queue[1..])
  {
    if AnyIdle(s, queue) {
      var n :| 0 <= n < |queue| && Idle(s, queue[n]);
      assert n == 0 || queue[1..][n - 1] == queue[n];
    }
    if AnyIdle(s, queue[1..]) {
      var n :| 0 <= n < |queue[1..]| && Idle(s, queue[1..][n]);
      assert queue[n + 1] == queue[1..][n];
    }
  }

  lemma FirstIdleTail(s: State, queue: seq<Key>, phase: Phase)
    requires queue != [] && !Idle(s, queue[0]) && FirstIdle(s, queue[1..], phase)
    ensures FirstIdle(s, queue, phase)
  {
    var tail := queue[1..];
    var k :| 0 <= k < |tail| && tail[k] == phase.id && Idle(s, tail[k]) && phase.rest == tail[k + 1..]
      && forall m | 0 <= m < k :: !Idle(s, tail[m]);
    assert queue[k + 1] == phase.id && phase.rest == queue[k + 2..];
    forall m | 0 <= m < k + 1 ensures !Idle(s, queue[m]) {
      if m > 0 { assert queue[m] == tail[m - 1]; }
    }
  }

  // After a deletion: a failed one ends the acquire; if the total holds now, the acquire goes
  // on and nobody else is evicted; otherwise the next idle candidate goes, if there is one.
  lemma DeletionStopsInTime(s: State, i: nat, ok: bool, left: nat, limits: Limits)
    requires Enabled(s, DoDeleted(i, ok, left))
    ensures |Do(s, DoDeleted(i, ok, left), limits).ops| == |s.ops|
    ensures var s' := Do(s, DoDeleted(i, ok, left), limits); var t := Deleted(s, i, ok, left);
      var (rest, phase) := (s.ops[i].phase.rest, s'.ops[i].phase);
      && s'.sizes == t.sizes
      && (phase == Preparing <==> ok && Sum(s'.sizes) <= limits.total)
      && (phase.Deleting? <==> ok && Sum(s'.sizes) > limits.total && AnyIdle(t, rest))
      && (phase.Deleting? ==> FirstIdle(t, rest, phase))
      && (phase == Measuring(Reserved) <==> !ok || (Sum(s'.sizes) > limits.total && !AnyIdle(t, rest)))
  {
    NextVictimExactly(Deleted(s, i, ok, left), i, s.ops[i].phase.rest, limits);
  }

  // What a deletion frees: exactly its own directory, unless it failed.
  lemma DeletionFreesItsOwn(s: State, i: nat, ok: bool, left: nat, limits: Limits)
    requires Enabled(s, DoDeleted(i, ok, left))
    ensures var s' := Do(s, DoDeleted(i, ok, left), limits); var id := s.ops[i].phase.id;
      && s'.sizes == (if ok then s.sizes - {id} else s.sizes)
      && (ok && id in s.sizes ==> Sum(s'.sizes) + s.sizes[id] == Sum(s.sizes))
      && (forall k | k != id :: k in s.disk <==> k in s'.disk) && (forall k | k != id && k in s.disk :: s'.disk[k] == s.disk[k])
      && (ok ==> id !in s'.disk)
  {
    NextVictimDisk(Deleted(s, i, ok, left), i, s.ops[i].phase.rest, limits);
    if ok && s.ops[i].phase.id in s.sizes { SumSplit(s.sizes, s.ops[i].phase.id); }
  }

  lemma {:induction false} NextVictimDisk(s: State, i: nat, queue: seq<Key>, limits: Limits)
    requires i < |s.ops|
    ensures NextVictim(s, i, queue, limits).disk == s.disk && NextVictim(s, i, queue, limits).sizes == s.sizes
    decreases |queue|
  {
    if queue != [] { NextVictimDisk(s, i, queue[1..], limits); }
  }

  // Candidates are looked for exactly when the new reservation breaks the total, and they are
  // exactly the recorded directories that are idle then.
  lemma EvictionBeginsOverTotal(s: State, i: nat, cancelled: bool, limits: Limits)
    requires Enabled(s, DoResume(i, cancelled))
    ensures |Do(s, DoResume(i, cancelled), limits).ops| == |s.ops|
    ensures var s' := Do(s, DoResume(i, cancelled), limits); var (key, phase) := (s.ops[i].key, s'.ops[i].phase);
      && (phase == Measuring(Recorded) <==> s.closed || cancelled)
      && (!s.closed && !cancelled ==>
            && s'.sizes == s.sizes[key := limits.repository] && key in s'.active
            && (phase.Statting? <==> Sum(s'.sizes) > limits.total)
            && (phase == Preparing <==> Sum(s'.sizes) <= limits.total)
            && (phase.Statting? ==> forall k :: k in phase.candidates <==> k in s.sizes && k != key && Idle(s, k)))
  {
    var s' := Do(s, DoResume(i, cancelled), limits);
    if s'.ops[i].phase.Statting? {
      assert Candidates(Reserve(s, s.ops[i].key, limits)) == s'.ops[i].phase.candidates;
    }
  }

  // The first victim goes without another look at the sum, which may have fallen while the
  // candidates were examined; without a victim the sum decides.
  lemma FirstVictimExactly(s: State, i: nat, queue: seq<Key>, limits: Limits)
    requires Enabled(s, DoStatted(i, Some(queue))) && multiset(queue) == multiset(s.ops[i].phase.candidates)
    ensures |Do(s, DoStatted(i, Some(queue)), limits).ops| == |s.ops|
    ensures var phase := Do(s, DoStatted(i, Some(queue)), limits).ops[i].phase;
      && (phase.Deleting? <==> AnyIdle(s, queue)) && (phase.Deleting? ==> FirstIdle(s, queue, phase))
      && (phase == Preparing <==> !AnyIdle(s, queue) && Sum(s.sizes) <= limits.total)
      && (phase == Measuring(Reserved) <==> !AnyIdle(s, queue) && Sum(s.sizes) > limits.total)
  {
    NextVictimExactly(s, i, queue, limits);
  }

  // ---- A lease and its release ----

  // A lease is granted exactly if its directory could be prepared, which then exists and keeps
  // what it held.
  lemma LeaseExactly(s: State, i: nat, ok: bool, limits: Limits)
    requires Enabled(s, DoPrepared(i, ok))
    ensures |Do(s, DoPrepared(i, ok), limits).ops| == |s.ops|
    ensures var s' := Do(s, DoPrepared(i, ok), limits); var key := s.ops[i].key;
      && (s'.ops[i].phase == Granted <==> ok) && (!ok ==> s'.ops[i].phase == Measuring(Recorded))
      && (ok ==> key in s'.disk && s'.disk[key] == if key in s.disk then s.disk[key] else 0)
      && s'.sizes == s.sizes && s'.tails == s.tails && s'.active == s.active
  {
  }

  // A released directory stays exactly if its size can be read and is within the limit, and is
  // then recorded with it ...
  lemma ReleaseRecordsExactly(s: State, i: nat, ok: bool, limits: Limits)
    requires Enabled(s, DoMeasured(i, ok))
    ensures |Do(s, DoMeasured(i, ok), limits).ops| == |s.ops|
    ensures var s' := Do(s, DoMeasured(i, ok), limits); var key := s.ops[i].key;
      var keeps := ok && key in s.disk && s.disk[key] <= limits.repository;
      && (s'.ops[i].phase == Touching <==> keeps)
      && (!keeps ==> s'.ops[i].phase == Removing(s.ops[i].phase.stake))
      && s'.sizes == (if keeps then s.sizes[key := s.disk[key]] else s.sizes) && s'.disk == s.disk
  {
  }

  // The key is free again: nobody is active on it, and a waiting line that ended here is gone.
  ghost predicate Freed(s: State, s': State, i: nat)
    requires i < |s.ops|
  {
    var key := s.ops[i].key;
    && |s'.ops| == |s.ops| && s'.ops[i].phase == Finished
    && s'.active == s.active - {key}
    && (key in s.tails && s.tails[key] == OfAcquire(i) ==> s'.tails == s.tails - {key})
    && (!(key in s.tails && s.tails[key] == OfAcquire(i)) ==> s'.tails == s.tails)
  }

  // ... and otherwise removed, or recorded at the full limit if even that fails. In every case
  // the release ends with its key free.
  lemma ReleaseEndsExactly(s: State, i: nat, ok: bool, left: nat, limits: Limits)
    ensures Enabled(s, DoTouched(i, ok)) ==>
      var s' := Do(s, DoTouched(i, ok), limits);
      if ok then Freed(s, s', i) && s'.sizes == s.sizes && s'.disk == s.disk
      else s' == SetPhase(s, i, Removing(Recorded))
    ensures Enabled(s, DoRemoved(i, ok, left)) ==>
      var s' := Do(s, DoRemoved(i, ok, left), limits); var key := s.ops[i].key;
      && Freed(s, s', i)
      && (ok ==> s'.sizes == s.sizes - {key} && s'.disk == s.disk - {key})
      && (!ok ==> s'.sizes == s.sizes[key := limits.repository])
      && (forall k | k != key :: (k in s'.disk <==> k in s.disk) && (k in s.disk ==> s'.disk[k] == s.disk[k]))
  {
  }
}
