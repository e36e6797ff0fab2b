// The cache object itself: its maps are changed between two awaits, one method per stretch
// (src/git/git-cache.ts). Every method is the corresponding step of GitCache.Do.
module GitCacheStore {
  import opened Options
  import opened CacheLocks
  import opened GitCache

  // The sum of the recorded sizes, whatever the order of the map.
  method Total(sizes: map<Key, nat>) returns (sum: nat)
    ensures sum == Sum(sizes)
  {
    var rest := sizes;
    sum := 0;
    while rest != map[]
      invariant sum + Sum(rest) == Sum(sizes)
      decreases |rest|
    {
      var key :| key in rest;
      SumSplit(rest, key);
      assert |rest - {key}| < |rest| by { assert rest == (rest - {key})[key := rest[key]]; }
      sum := sum + rest[key];
      rest := rest - {key};
    }
  }

  class Cache {
    const limits: Limits
    var ops: seq<Op>
    var tails: map<Key, Promise>
    var sizes: map<Key, nat>
    var active: set<Key>
    var disk: map<Key, nat>
    var closed: bool

    function Now(): State
      reads this
    {
      State(ops, tails, sizes, active, disk, closed)
    }

    // Opening the cache: every directory found is measured.
    constructor (limits: Limits, found: map<Key, nat>)
      ensures Opened(Now()) && this.limits == limits && disk == found
      ensures Inv(Now(), limits)
    {
      this.limits := limits;
      ops, tails, sizes, active, disk, closed := [], map[], found, {}, found, false;
      new;
      OpenedIsFine(Now(), limits);
    }

    method Acquire(key: Key) returns (op: Option<nat>)
      requires Inv(Now(), limits)
      modifies this
      ensures Now() == old(Do(Now(), DoAcquire(key), limits)) && Inv(Now(), limits)
      ensures op == if old(closed) then None else Some(old(|ops|))
    {
      StepKeeps(Now(), DoAcquire(key), limits);
      if closed { return None; }
      var prior := if key in tails then Some(tails[key]) else None;
      op := Some(|ops|);
      tails := tails[key := OfAcquire(|ops|)];
      ops := ops + [Op(key, Waiting(prior))];
    }

    method Fail(i: nat, stake: Stake)
      requires i < |ops|
      modifies this`ops
      ensures Now() == old(SetPhase(Now(), i, Measuring(stake)))
    {
      ops := ops[i := ops[i].(phase := Measuring(stake))];
    }

    // From the end of the wait to the next await.
    method Resume(i: nat, cancelled: bool)
      requires Inv(Now(), limits) && Enabled(Now(), DoResume(i, cancelled))
      modifies this
      ensures Now() == old(Do(Now(), DoResume(i, cancelled), limits)) && Inv(Now(), limits)
    {
      StepKeeps(Now(), DoResume(i, cancelled), limits);
      if closed || cancelled {
        Fail(i, Recorded);
        return;
      }
      var key := ops[i].key;
      active := active + {key};
      sizes := sizes[key := limits.repository];
      var sum := Total(sizes);
      if sum > limits.total {
        var candidates := set k | k in sizes && k !in active && k !in tails;
        ops := ops[i := ops[i].(phase := Statting(candidates))];
      } else {
        ops := ops[i := ops[i].(phase := Preparing)];
      }
    }

    // The eviction loop up to the next deletion, or to the check after it.
    method EvictNext(i: nat, queue: seq<Key>)
      requires i < |ops|
      modifies this
      ensures Now() == old(NextVictim(Now(), i, queue, limits))
    {
      var k := 0;
      while k < |queue| && (queue[k] in active || queue[k] in tails)
        invariant k <= |queue|
        invariant NextVictim(Now(), i, queue, limits) == NextVictim(Now(), i, queue[k..], limits)
        invariant Now() == old(Now())
      {
        k := k + 1;
      }
      if k < |queue| {
        var id := queue[k];
        active := active + {id};
        tails := tails[id := OfDeletion(i)];
        ops := ops[i := ops[i].(phase := Deleting(id, queue[k + 1..]))];
        return;
      }
      var sum := Total(sizes);
      if sum > limits.total { Fail(i, Reserved); } else { ops := ops[i := ops[i].(phase := Preparing)]; }
    }

    // All candidates have been looked at; the caller gives them in the order of their times.
    method Statted(i: nat, order: Option<seq<Key>>)
      requires Inv(Now(), limits) && i < |ops| && ops[i].phase.Statting?
      requires order.Some? ==> multiset(order.value) == multiset(ops[i].phase.candidates)
      modifies this
      ensures Now() == old(Do(Now(), DoStatted(i, order), limits)) && Inv(Now(), limits)
    {
      StepKeeps(Now(), DoStatted(i, order), limits);
      if order.None? { Fail(i, Reserved); } else { EvictNext(i, order.value); }
    }

    method AfterDeletion(i: nat, ok: bool, left: nat)
      requires Inv(Now(), limits) && i < |ops| && ops[i].phase.Deleting?
      modifies this
      ensures Now() == old(Do(Now(), DoDeleted(i, ok, left), limits)) && Inv(Now(), limits)
    {
      StepKeeps(Now(), DoDeleted(i, ok, left), limits);
      var id, rest := ops[i].phase.id, ops[i].phase.rest;
      disk := if ok then disk - {id} else Shrunk(disk, id, left);
      if ok { sizes := sizes - {id}; }
      active := active - {id};
      if id in tails && tails[id] == OfDeletion(i) { tails := tails - {id}; }
      if !ok {
        Fail(i, Reserved);
        return;
      }
      var sum := Total(sizes);
      if sum <= limits.total { ops := ops[i := ops[i].(phase := Preparing)]; } else { EvictNext(i, rest); }
    }

    method Prepared(i: nat, ok: bool)
      requires Inv(Now(), limits) && i < |ops| && ops[i].phase.Preparing?
      modifies this
      ensures Now() == old(Do(Now(), DoPrepared(i, ok), limits)) && Inv(Now(), limits)
    {
      StepKeeps(Now(), DoPrepared(i, ok), limits);
      if !ok {
        Fail(i, Recorded);
        return;
      }
      if ops[i].key !in disk { disk := disk[ops[i].key := 0]; }
      ops := ops[i := ops[i].(phase := Granted)];
    }

    method Release(i: nat)
      requires Inv(Now(), limits) && i < |ops| && ops[i].phase.Granted?
      modifies this
      ensures Now() == old(Do(Now(), DoRelease(i), limits)) && Inv(Now(), limits)
    {
      StepKeeps(Now(), DoRelease(i), limits);
      Fail(i, Recorded);
    }

    method Measured(i: nat, ok: bool)
      requires Inv(Now(), limits) && i < |ops| && ops[i].phase.Measuring?
      modifies this
      ensures Now() == old(Do(Now(), DoMeasured(i, ok), limits)) && Inv(Now(), limits)
    {
      StepKeeps(Now(), DoMeasured(i, ok), limits);
      var key := ops[i].key;
      if ok && key in disk && disk[key] <= limits.repository {
        sizes := sizes[key := disk[key]];
        ops := ops[i := ops[i].(phase := Touching)];
      } else {
        ops := ops[i := ops[i].(phase := Removing(ops[i].phase.stake))];
      }
    }

    // The `finally` of a release.
    method Leave(i: nat)
      requires i < |ops|
      modifies this
      ensures Now() == old(Finish(Now(), i))
    {
      var key := ops[i].key;
      active := active - {key};
      ops := ops[i := ops[i].(phase := Finished)];
      if key in tails && tails[key] == OfAcquire(i) { tails := tails - {key}; }
    }

    method Touched(i: nat, ok: bool)
      requires Inv(Now(), limits) && i < |ops| && ops[i].phase.Touching?
      modifies this
      ensures Now() == old(Do(Now(), DoTouched(i, ok), limits)) && Inv(Now(), limits)
    {
      StepKeeps(Now(), DoTouched(i, ok), limits);
      if ok { Leave(i); } else { ops := ops[i := ops[i].(phase := Removing(Recorded))]; }
    }

    method Removed(i: nat, ok: bool, left: nat)
      requires Inv(Now(), limits) && i < |ops| && ops[i].phase.Removing?
      modifies this
      ensures Now() == old(Do(Now(), DoRemoved(i, ok, left), limits)) && Inv(Now(), limits)
    {
      StepKeeps(Now(), DoRemoved(i, ok, left), limits);
      var key := ops[i].key;
      if ok {
        disk, sizes := disk - {key}, sizes - {key};
      } else {
        disk, sizes := Shrunk(disk, key, left), sizes[key := limits.repository];
      }
      Leave(i);
    }

    method Close()
      requires Inv(Now(), limits)
      modifies this
      ensures Now() == old(Do(Now(), DoClose, limits)) && Inv(Now(), limits)
    {
      StepKeeps(Now(), DoClose, limits);
      closed := true;
    }
  }
}
