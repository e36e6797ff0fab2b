// Which jobs the queue of src/jobs/single-job-queue.ts takes and for what reason it refuses
// others, and that every job it took can be started.
module JobAdmission {
  import opened Options
  import opened JobQueue

  // A job is taken exactly if the queue accepts, the job has a live reservation or finds room
  // beside the waiting and the reserved ones, and no job of this name runs or waits.
  lemma AdmissionExactly(q: Queue, id: string, reservation: Option<nat>)
    ensures var (q', rejection) := Enqueue(q, id, reservation);
      var reserved := reservation.Some? && Live(q, reservation.value);
      var busy := id in q.running || exists i :: 0 <= i < |q.pending| && q.pending[i].id == id;
      && (rejection == None <==> q.accepting && !busy && (reserved || (reservation.None? && |q.pending| + q.reservedCount < q.maximumQueued)))
      && (rejection == Some(QueueClosed) <==> !q.accepting)
      && (rejection == Some(BadReservation) <==> q.accepting && reservation.Some? && !reserved)
      && (rejection == Some(QueueFull) <==> q.accepting && reservation.None? && |q.pending| + q.reservedCount >= q.maximumQueued)
      && (rejection == None ==> q'.pending == q.pending + [Entry(id, |q.admitted|)])
      && (rejection != None ==> q'.pending == q.pending && q'.admitted == q.admitted)
      && q'.running == q.running && q'.accepting == q.accepting && q'.abortRequested == q.abortRequested
  {
  }

  // Whatever becomes of the job, a live reservation it brings is used up, and gives one slot
  // back; any other is left alone.
  lemma ReservationIsUsedUp(q: Queue, id: string, r: nat)
    ensures var q' := Enqueue(q, id, Some(r)).0;
      && |q'.reservations| == |q.reservations| && !Live(q', r)
      && q'.reservedCount == (if Live(q, r) then q.reservedCount - 1 else q.reservedCount)
      && forall s: nat | s != r :: Live(q', s) <==> Live(q, s)
  {
  }

  // A slot is reserved exactly if the queue accepts and has room, and releasing it gives it
  // back once.
  lemma ReservationsExactly(q: Queue)
    ensures var (q', rejection) := Reserve(q);
      && (rejection == None <==> q.accepting && |q.pending| + q.reservedCount < q.maximumQueued)
      && (rejection == Some(QueueClosed) <==> !q.accepting)
      && (rejection == Some(QueueFull) <==> q.accepting && |q.pending| + q.reservedCount >= q.maximumQueued)
      && (rejection == None ==> q'.reservedCount == q.reservedCount + 1 && Live(q', |q.reservations|))
      && (rejection != None ==> q' == q)
    ensures forall r: nat, state | state != RESERVED :: Leave(Leave(q, r, state), r, RELEASED) == Leave(q, r, state)
    ensures Reserve(q).1 == None ==> Leave(Reserve(q).0, |q.reservations|, RELEASED).reservedCount == q.reservedCount
  {
  }

  // ---- Nothing waits for ever ----

  lemma {:induction false} Continue(q: Queue, first: seq<Op>, second: seq<Op>)
    ensures Play(Play(q, first), second) == Play(q, first + second)
  {
    if second == [] {
      assert first + second == first;
    } else {
      var last := |second| - 1;
      Continue(q, first, second[..last]);
      assert (first + second)[..|first + second| - 1] == first + second[..last];
    }
  }

  lemma PlayOne(q: Queue, op: Op)
    ensures Play(q, [op]) == Do(q, op)
  {
    assert [op][..0] == [];
    assert Play(q, []) == q;
  }

  // A drained queue with waiting jobs has a running one, whose end lets the next one start.
  lemma EndLetsNextStart(q: Queue) returns (id: string)
    requires Inv(q) && q.pending != [] && |q.running| == q.concurrency
    ensures id in q.running && |Finish(q, id).pending| < |q.pending| && Finish(q, id).admitted == q.admitted
  {
    assert q.running != map[];
    id :| id in q.running;
    var freed := q.(running := q.running - {id});
    assert freed.running.Keys == q.running.Keys - {id};
    assert |freed.running| == |freed.running.Keys| < |q.running.Keys|;
    assert Drain(freed) == Drain(StartNext(freed));
    DrainShrinks(StartNext(freed));
  }

  lemma {:induction false} DrainShrinks(q: Queue)
    ensures |Drain(q).pending| <= |q.pending| && Drain(q).admitted == q.admitted && Drain(q).concurrency == q.concurrency
    decreases |q.pending|
  {
    if |q.running| < q.concurrency && |q.pending| > 0 { DrainShrinks(StartNext(q)); }
  }

  // From every state of the queue all jobs it has taken can be started: the lanes drain, and
  // as running jobs end the waiting ones follow, in the order of admission.
  lemma {:induction false} EveryJobCanStart(q: Queue) returns (ops: seq<Op>)
    requires Inv(q)
    ensures Play(q, ops).pending == [] && Play(q, ops).started == q.admitted
    decreases |q.pending|
  {
    var drained := Drain(q);
    OpKeeps(q, DoDrain);
    DrainIsComplete(q);
    DrainShrinks(q);
    PlayOne(q, DoDrain);
    if drained.pending == [] {
      ops := [DoDrain];
    } else {
      var id := EndLetsNextStart(drained);
      OpKeeps(drained, DoFinish(id));
      PlayOne(drained, DoFinish(id));
      var rest := EveryJobCanStart(Finish(drained, id));
      Continue(drained, [DoFinish(id)], rest);
      Continue(q, [DoDrain], [DoFinish(id)] + rest);
      ops := [DoDrain] + ([DoFinish(id)] + rest);
    }
  }
}
