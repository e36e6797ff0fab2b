// The waiting lines of the Git cache: one chain of promises per key
// (the `tails` map of src/git/git-cache.ts).
module CacheLocks {
  import opened Options

  type Key = string

  // What a map entry of `tails` stands for: the end of an acquire, or of an eviction by an
  // acquire of another key.
  datatype Promise = OfAcquire(op: nat) | OfDeletion(op: nat)

  // How far an acquire of a key is: waiting for the promise found in `tails`, holding the key,
  // holding it while evicting another key, or over.
  datatype Stage = Queued(prior: Option<Promise>) | Holding | Evicting(id: Key) | Over

  datatype Ticket = Ticket(key: Key, stage: Stage)
  datatype Locks = Locks(tickets: seq<Ticket>, tails: map<Key, Promise>)

  predicate Evicts(t: Ticket, key: Key) { t.stage.Evicting? && t.stage.id == key }

  ghost predicate Untouched(l: Locks, key: Key)
  {
    forall d | 0 <= d < |l.tickets| :: !Evicts(l.tickets[d], key)
  }

  ghost predicate OverBefore(l: Locks, n: nat, key: Key)
    requires n <= |l.tickets|
  {
    forall i | 0 <= i < n && l.tickets[i].key == key :: l.tickets[i].stage.Over?
  }

  // The promise has settled, seen by an acquire of `key`.
  predicate Resolved(l: Locks, prior: Option<Promise>, key: Key)
  {
    match prior
    case None => true
    case Some(OfAcquire(i)) => i < |l.tickets| && l.tickets[i].stage.Over?
    case Some(OfDeletion(d)) => d < |l.tickets| && !Evicts(l.tickets[d], key)
  }

  // ---- The steps ----

  function Enter(l: Locks, key: Key): Locks
  {
    Locks(l.tickets + [Ticket(key, Queued(if key in l.tails then Some(l.tails[key]) else None))],
          l.tails[key := OfAcquire(|l.tickets|)])
  }

  function Staged(l: Locks, i: nat, stage: Stage): Locks
    requires i < |l.tickets|
  {
    l.(tickets := l.tickets[i := l.tickets[i].(stage := stage)])
  }

  function StartEviction(l: Locks, i: nat, id: Key): Locks
    requires i < |l.tickets|
  {
    Staged(l, i, Evicting(id)).(tails := l.tails[id := OfDeletion(i)])
  }

  function WithoutTail(tails: map<Key, Promise>, key: Key, mine: Promise): map<Key, Promise>
  {
    if key in tails && tails[key] == mine then tails - {key} else tails
  }

  function EndEviction(l: Locks, i: nat, id: Key): Locks
    requires i < |l.tickets|
  {
    Staged(l, i, Holding).(tails := WithoutTail(l.tails, id, OfDeletion(i)))
  }

  function Leave(l: Locks, i: nat): Locks
    requires i < |l.tickets|
  {
    Staged(l, i, Over).(tails := WithoutTail(l.tails, l.tickets[i].key, OfAcquire(i)))
  }

  // ---- The invariant ----

  ghost predicate TicketFine(l: Locks, j: nat)
    requires j < |l.tickets|
  {
    var key := l.tickets[j].key;
    match l.tickets[j].stage
    case Queued(None) => OverBefore(l, j, key) && Untouched(l, key)
    case Queued(Some(OfAcquire(i))) =>
      && i < j && l.tickets[i].key == key
      && (forall m | i < m < j :: l.tickets[m].key != key)
      && (l.tickets[i].stage.Over? ==> Untouched(l, key))
    case Queued(Some(OfDeletion(d))) =>
      d < |l.tickets| && OverBefore(l, j, key) && (!Evicts(l.tickets[d], key) ==> Untouched(l, key))
    case Over => OverBefore(l, j, key)
    case _ => OverBefore(l, j, key) && Untouched(l, key)
  }

  ghost predicate TailFine(l: Locks, key: Key)
  {
    if key !in l.tails then OverBefore(l, |l.tickets|, key) && Untouched(l, key)
    else match l.tails[key]
      case OfAcquire(i) =>
        && i < |l.tickets| && l.tickets[i].key == key && !l.tickets[i].stage.Over?
        && forall m | i < m < |l.tickets| :: l.tickets[m].key != key
      case OfDeletion(d) =>
        d < |l.tickets| && Evicts(l.tickets[d], key) && OverBefore(l, |l.tickets|, key)
  }

  ghost predicate OneEvictor(l: Locks)
  {
    forall d, e | 0 <= d < |l.tickets| && 0 <= e < |l.tickets| && l.tickets[d].stage.Evicting? && l.tickets[e].stage.Evicting? ::
      l.tickets[d].stage.id == l.tickets[e].stage.id ==> d == e
  }

  ghost predicate LockInv(l: Locks)
  {
    && (forall j | 0 <= j < |l.tickets| :: TicketFine(l, j))
    && (forall key :: TailFine(l, key))
    && OneEvictor(l)
  }

  lemma EnterKeeps(l: Locks, key: Key)
    requires LockInv(l)
    ensures LockInv(Enter(l, key))
  {
    var l' := Enter(l, key);
    assert forall j | 0 <= j < |l.tickets| :: l'.tickets[j] == l.tickets[j];
    assert TailFine(l, key);
    forall j | 0 <= j < |l'.tickets| ensures TicketFine(l', j) {
      if j < |l.tickets| { assert TicketFine(l, j); }
    }
    forall k ensures TailFine(l', k) { assert TailFine(l, k); }
  }

  // The wait is over: nobody else holds the key and nobody is evicting it.
  lemma StartKeeps(l: Locks, i: nat)
    requires LockInv(l) && i < |l.tickets| && l.tickets[i].stage.Queued?
    requires Resolved(l, l.tickets[i].stage.prior, l.tickets[i].key)
    ensures LockInv(Staged(l, i, Holding))
  {
    var l', key := Staged(l, i, Holding), l.tickets[i].key;
    assert TicketFine(l, i);
    assert OverBefore(l, i, key) && Untouched(l, key) by {
      if l.tickets[i].stage.prior.Some? && l.tickets[i].stage.prior.value.OfAcquire? {
        var p := l.tickets[i].stage.prior.value.op;
        assert TicketFine(l, p);
      }
    }
    forall j | 0 <= j < |l'.tickets| ensures TicketFine(l', j) { assert TicketFine(l, j); }
    forall k ensures TailFine(l', k) { assert TailFine(l, k); }
  }

  lemma StartEvictionKeeps(l: Locks, i: nat, id: Key)
    requires LockInv(l) && i < |l.tickets| && l.tickets[i].stage.Holding? && id !in l.tails
    ensures LockInv(StartEviction(l, i, id))
  {
    var l' := StartEviction(l, i, id);
    assert TailFine(l, id);
    forall j | 0 <= j < |l'.tickets| ensures TicketFine(l', j) { assert TicketFine(l, j); }
    forall k ensures TailFine(l', k) { assert TailFine(l, k); }
  }

  lemma EndEvictionKeeps(l: Locks, i: nat, id: Key)
    requires LockInv(l) && i < |l.tickets| && Evicts(l.tickets[i], id)
    ensures LockInv(EndEviction(l, i, id))
  {
    var l' := EndEviction(l, i, id);
    assert Untouched(l', id);
    forall j | 0 <= j < |l'.tickets| ensures TicketFine(l', j) { assert TicketFine(l, j); }
    forall k ensures TailFine(l', k) { assert TailFine(l, k); }
  }

  lemma LeaveKeeps(l: Locks, i: nat)
    requires LockInv(l) && i < |l.tickets| && l.tickets[i].stage.Holding?
    ensures LockInv(Leave(l, i))
  {
    var l' := Leave(l, i);
    assert TicketFine(l, i);
    forall j | 0 <= j < |l'.tickets| ensures TicketFine(l', j) { assert TicketFine(l, j); }
    forall k ensures TailFine(l', k) { assert TailFine(l, k); }
  }

  // ---- What the invariant says ----

  predicate Holds(t: Ticket) { t.stage.Holding? || t.stage.Evicting? }

  lemma MutualExclusion(l: Locks, i: nat, j: nat)
    requires LockInv(l) && i < |l.tickets| && j < |l.tickets|
    requires Holds(l.tickets[i]) && Holds(l.tickets[j]) && l.tickets[i].key == l.tickets[j].key
    ensures i == j
  {
    assert TicketFine(l, i) && TicketFine(l, j);
  }

  // While a key is being evicted nobody holds it, and everybody who wants it is waiting.
  lemma EvictedIsUnheld(l: Locks, d: nat, j: nat)
    requires LockInv(l) && d < |l.tickets| && j < |l.tickets|
    requires Evicts(l.tickets[d], l.tickets[j].key) && !l.tickets[j].stage.Over?
    ensures l.tickets[j].stage.Queued?
    ensures !Resolved(l, l.tickets[j].stage.prior, l.tickets[j].key)
  {
    assert TicketFine(l, j);
  }

  // A key somebody holds, waits for or evicts has an entry in `tails`, so no eviction of it starts.
  lemma WantedHasTail(l: Locks, j: nat)
    requires LockInv(l) && j < |l.tickets| && !l.tickets[j].stage.Over?
    ensures l.tickets[j].key in l.tails
    ensures l.tickets[j].stage.Evicting? ==> l.tickets[j].stage.id in l.tails
  {
    assert TailFine(l, l.tickets[j].key);
    if l.tickets[j].stage.Evicting? { assert TailFine(l, l.tickets[j].stage.id); }
  }

  // Behind every acquire that is not over stands one that does not wait.
  lemma {:induction false} NoDeadlock(l: Locks, j: nat) returns (i: nat)
    requires LockInv(l) && j < |l.tickets| && !l.tickets[j].stage.Over?
    ensures i < |l.tickets| && !l.tickets[i].stage.Over?
    ensures l.tickets[i].stage.Queued? ==> Resolved(l, l.tickets[i].stage.prior, l.tickets[i].key)
    ensures i == j || l.tickets[j].stage.Queued?
    decreases j
  {
    i := j;
    if l.tickets[j].stage.Queued? && !Resolved(l, l.tickets[j].stage.prior, l.tickets[j].key) {
      assert TicketFine(l, j);
      match l.tickets[j].stage.prior
      case Some(OfAcquire(p)) => i := NoDeadlock(l, p);
      case Some(OfDeletion(d)) => i := d;
    }
  }
}
