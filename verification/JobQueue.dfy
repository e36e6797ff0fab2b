// The in-process job queue (src/jobs/single-job-queue.ts): reservations, a bounded number of
// lanes, first-in first-out order, and abort. Every method body runs without interruption;
// tasks end and the queue drains in between.
module JobQueue {
  import opened Options

  // Each admitted task has its own ticket; two tasks may share a job id at different times.
  datatype Entry = Entry(id: string, ticket: nat)

  // The task's ticket and whether its abort signal has fired.
  datatype Lane = Lane(ticket: nat, aborted: bool)

  datatype ReservationState = RESERVED | CONSUMED | RELEASED

  datatype Queue = Queue(
    concurrency: nat, maximumQueued: nat,
    running: map<string, Lane>, pending: seq<Entry>, reservedCount: int, accepting: bool, abortRequested: bool,
    reservations: seq<ReservationState>,
    admitted: seq<Entry>, started: seq<Entry>)      // history

  datatype Rejection = QueueClosed | QueueFull | BadReservation | DuplicateJob

  function Fresh(concurrency: nat, maximumQueued: nat): Queue
  {
    Queue(concurrency, maximumQueued, map[], [], 0, true, false, [], [], [])
  }

  // ---- The methods as steps ----

  function Reserve(q: Queue): (Queue, Option<Rejection>)
  {
    if !q.accepting then (q, Some(QueueClosed))
    else if |q.pending| + q.reservedCount >= q.maximumQueued then (q, Some(QueueFull))
    else (q.(reservedCount := q.reservedCount + 1, reservations := q.reservations + [RESERVED]), None)
  }

  // Leaving the RESERVED state gives the slot back, once.
  function Leave(q: Queue, r: nat, state: ReservationState): Queue
  {
    if r < |q.reservations| && q.reservations[r] == RESERVED
    then q.(reservedCount := q.reservedCount - 1, reservations := q.reservations[r := state])
    else q
  }

  predicate Live(q: Queue, r: nat)
  {
    r < |q.reservations| && q.reservations[r] == RESERVED
  }

  predicate InUse(q: Queue, id: string)
  {
    id in q.running || exists i :: 0 <= i < |q.pending| && q.pending[i].id == id
  }

  function Admit(q: Queue, id: string): Queue
  {
    var entry := Entry(id, |q.admitted|);
    q.(pending := q.pending + [entry], admitted := q.admitted + [entry])
  }

  function Enqueue(q: Queue, id: string, reservation: Option<nat>): (Queue, Option<Rejection>)
  {
    if !q.accepting then (if reservation.Some? then Leave(q, reservation.value, RELEASED) else q, Some(QueueClosed))
    else if reservation.Some? && !Live(q, reservation.value) then (q, Some(BadReservation))
    else
      var q1 := if reservation.Some? then Leave(q, reservation.value, CONSUMED) else q;
      if reservation.None? && |q1.pending| + q1.reservedCount >= q1.maximumQueued then (q1, Some(QueueFull))
      else if InUse(q1, id) then (q1, Some(DuplicateJob))
      else (Admit(q1, id), None)
  }

  function StartNext(q: Queue): Queue
    requires q.pending != []
  {
    var entry := q.pending[0];
    q.(pending := q.pending[1..], running := q.running[entry.id := Lane(entry.ticket, q.abortRequested)],
       started := q.started + [entry])
  }

  function Drain(q: Queue): Queue
    decreases |q.pending|
  {
    if |q.running| < q.concurrency && |q.pending| > 0 then Drain(StartNext(q)) else q
  }

  // A running task ends: its lane is freed and the queue drains.
  function Finish(q: Queue, id: string): Queue
  {
    if id in q.running then Drain(q.(running := q.running - {id})) else q
  }

  function StopAccepting(q: Queue): Queue
  {
    q.(accepting := false)
  }

  function Abort(q: Queue): Queue
  {
    q.(abortRequested := true, running := map id | id in q.running :: q.running[id].(aborted := true))
  }

  datatype Op =
    | DoReserve
    | DoRelease(reservation: nat)
    | DoEnqueue(id: string, with: Option<nat>)
    | DoDrain
    | DoFinish(ended: string)
    | DoStopAccepting
    | DoAbort

  function Do(q: Queue, op: Op): Queue
  {
    match op
    case DoReserve => Reserve(q).0
    case DoRelease(r) => Leave(q, r, RELEASED)
    case DoEnqueue(id, with) => Enqueue(q, id, with).0
    case DoDrain => Drain(q)
    case DoFinish(id) => Finish(q, id)
    case DoStopAccepting => StopAccepting(q)
    case DoAbort => Abort(q)
  }

  function Play(q: Queue, ops: seq<Op>): Queue
  {
    if ops == [] then q else Do(Play(q, ops[..|ops| - 1]), ops[|ops| - 1])
  }

  // ---- The invariant ----

  function LiveCount(rs: seq<ReservationState>): nat
  {
    if rs == [] then 0 else LiveCount(rs[..|rs| - 1]) + if rs[|rs| - 1] == RESERVED then 1 else 0
  }

  ghost predicate IdsDistinct(q: Queue)
  {
    && (forall i, j | 0 <= i < j < |q.pending| :: q.pending[i].id != q.pending[j].id)
    && (forall i | 0 <= i < |q.pending| :: q.pending[i].id !in q.running)
  }

  ghost predicate TicketsFine(q: Queue)
  {
    && q.admitted == q.started + q.pending
    && (forall i | 0 <= i < |q.admitted| :: q.admitted[i].ticket == i)
    && (forall id | id in q.running :: q.running[id].ticket < |q.started| && q.started[q.running[id].ticket].id == id)
  }

  ghost predicate Inv(q: Queue)
  {
    && q.concurrency >= 1 && q.maximumQueued >= 1
    && |q.running| <= q.concurrency
    && q.reservedCount == LiveCount(q.reservations) && |q.pending| + q.reservedCount <= q.maximumQueued
    && IdsDistinct(q) && TicketsFine(q)
    && (q.abortRequested ==> forall id | id in q.running :: q.running[id].aborted)
  }

  lemma {:induction false} LiveCountUpdate(rs: seq<ReservationState>, r: nat, state: ReservationState)
    requires r < |rs| && rs[r] == RESERVED && state != RESERVED
    ensures LiveCount(rs[r := state]) == LiveCount(rs) - 1
  {
    var last := |rs| - 1;
    if r == last {
      assert rs[r := state][..last] == rs[..last];
    } else {
      assert rs[r := state][..last] == rs[..last][r := state];
      LiveCountUpdate(rs[..last], r, state);
    }
  }

  lemma {:induction false} LiveCountPositive(rs: seq<ReservationState>, r: nat)
    requires r < |rs| && rs[r] == RESERVED
    ensures LiveCount(rs) >= 1
  {
    if r < |rs| - 1 { LiveCountPositive(rs[..|rs| - 1], r); }
  }

  lemma LeaveKeeps(q: Queue, r: nat, state: ReservationState)
    requires Inv(q) && state != RESERVED
    ensures Inv(Leave(q, r, state)) && (Live(q, r) ==> Leave(q, r, state).reservedCount == q.reservedCount - 1)
  {
    if Live(q, r) { LiveCountUpdate(q.reservations, r, state); }
  }

  lemma ReserveKeeps(q: Queue)
    requires Inv(q)
    ensures Inv(Reserve(q).0)
  {
    assert (q.reservations + [RESERVED])[..|q.reservations|] == q.reservations;
  }

  lemma AdmitKeeps(q: Queue, id: string)
    requires Inv(q) && !InUse(q, id) && |q.pending| + q.reservedCount < q.maximumQueued
    ensures Inv(Admit(q, id))
  {
    var q' := Admit(q, id);
    assert q'.admitted == q'.started + q'.pending;
  }

  lemma EnqueueKeeps(q: Queue, id: string, reservation: Option<nat>)
    requires Inv(q)
    ensures Inv(Enqueue(q, id, reservation).0)
  {
    if reservation.Some? {
      LeaveKeeps(q, reservation.value, RELEASED);
      LeaveKeeps(q, reservation.value, CONSUMED);
      var q1 := Leave(q, reservation.value, CONSUMED);
      if q.accepting && Live(q, reservation.value) && !InUse(q1, id) { AdmitKeeps(q1, id); }
    } else if q.accepting && |q.pending| + q.reservedCount < q.maximumQueued && !InUse(q, id) {
      AdmitKeeps(q, id);
    }
  }

  lemma StartNextKeeps(q: Queue)
    requires Inv(q) && q.pending != [] && |q.running| < q.concurrency
    ensures Inv(StartNext(q))
  {
    var q', entry := StartNext(q), q.pending[0];
    assert q.pending == [entry] + q'.pending;
    assert q'.started + q'.pending == q.started + q.pending;
    assert entry.ticket == |q.started| by { assert q.admitted[|q.started|] == entry; }
    assert q'.running.Keys == q.running.Keys + {entry.id};
    assert |q'.running| == |q'.running.Keys| && |q.running| == |q.running.Keys|;
  }

  lemma {:induction false} DrainKeeps(q: Queue)
    requires Inv(q)
    ensures Inv(Drain(q))
    decreases |q.pending|
  {
    if |q.running| < q.concurrency && |q.pending| > 0 {
      StartNextKeeps(q);
      DrainKeeps(StartNext(q));
    }
  }

  lemma FinishKeeps(q: Queue, id: string)
    requires Inv(q)
    ensures Inv(Finish(q, id))
  {
    if id in q.running {
      var q1 := q.(running := q.running - {id});
      assert q1.running.Keys == q.running.Keys - {id};
      assert |q1.running| == |q1.running.Keys| <= |q.running.Keys|;
      DrainKeeps(q1);
    }
  }

  lemma AbortKeeps(q: Queue)
    requires Inv(q)
    ensures Inv(Abort(q))
  {
    assert Abort(q).running.Keys == q.running.Keys;
    assert |Abort(q).running| == |Abort(q).running.Keys|;
  }

  lemma OpKeeps(q: Queue, op: Op)
    requires Inv(q)
    ensures Inv(Do(q, op))
  {
    match op
    case DoReserve => ReserveKeeps(q);
    case DoRelease(r) => LeaveKeeps(q, r, RELEASED);
    case DoEnqueue(id, with) => EnqueueKeeps(q, id, with);
    case DoDrain => DrainKeeps(q);
    case DoFinish(id) => FinishKeeps(q, id);
    case DoStopAccepting =>
    case DoAbort => AbortKeeps(q);
  }

  // ---- Every run ----

  lemma {:induction false} PlayKeeps(q: Queue, ops: seq<Op>)
    requires Inv(q)
    ensures Inv(Play(q, ops))
  {
    if ops != [] {
      PlayKeeps(q, ops[..|ops| - 1]);
      OpKeeps(Play(q, ops[..|ops| - 1]), ops[|ops| - 1]);
    }
  }

  // In every run: lanes and slots are bounded, no job id is admitted twice at a time, tasks
  // start in the order of admission and exactly once, and after an abort every running task
  // has its signal.
  lemma QueueRuns(concurrency: nat, maximumQueued: nat, ops: seq<Op>)
    requires concurrency >= 1 && maximumQueued >= 1
    ensures var q := Play(Fresh(concurrency, maximumQueued), ops);
      && |q.running| <= q.concurrency && |q.pending| + LiveCount(q.reservations) <= q.maximumQueued
      && IdsDistinct(q)
      && q.admitted == q.started + q.pending && (forall i | 0 <= i < |q.admitted| :: q.admitted[i].ticket == i)
      && (q.abortRequested ==> forall id | id in q.running :: q.running[id].aborted)
  {
    PlayKeeps(Fresh(concurrency, maximumQueued), ops);
  }

  // A live reservation never meets a capacity error: if the queue still accepts, enqueueing
  // with it fails only for a job id already in use.
  lemma ReservationHasRoom(concurrency: nat, maximumQueued: nat, ops: seq<Op>, id: string, r: nat)
    requires concurrency >= 1 && maximumQueued >= 1
    requires var q := Play(Fresh(concurrency, maximumQueued), ops); q.accepting && Live(q, r)
    ensures var q := Play(Fresh(concurrency, maximumQueued), ops); var e := Enqueue(q, id, Some(r));
      && (e.1 == None <==> !InUse(q, id))
      && (e.1.Some? ==> e.1.value == DuplicateJob)
      && (e.1 == None ==> e.0.pending == q.pending + [Entry(id, |q.admitted|)])
  {
  }

  // Draining leaves all lanes full or nothing waiting, and starts exactly the tasks that
  // were waiting longest.
  lemma {:induction false} DrainIsComplete(q: Queue)
    requires Inv(q)
    ensures var d := Drain(q);
      && (|d.running| == d.concurrency || d.pending == [])
      && d.started + d.pending == q.started + q.pending && q.started <= d.started
      && (forall id | id in q.running :: id in d.running && d.running[id] == q.running[id])
    decreases |q.pending|
  {
    if |q.running| < q.concurrency && |q.pending| > 0 {
      var q' := StartNext(q);
      StartNextKeeps(q);
      DrainIsComplete(q');
      assert q.pending == [q.pending[0]] + q'.pending;
      assert q'.started + q'.pending == q.started + q.pending;
    }
  }

  // An aborted queue stays aborted: every task that runs afterwards has its signal set.
  lemma {:induction false} AbortReachesEveryLaterTask(q: Queue, ops: seq<Op>)
    requires Inv(q)
    ensures var later := Play(Abort(q), ops);
      later.abortRequested && forall id | id in later.running :: later.running[id].aborted
  {
    AbortKeeps(q);
    PlayKeeps(Abort(q), ops);
    StaysAborted(Abort(q), ops);
  }

  lemma {:induction false} StaysAborted(q: Queue, ops: seq<Op>)
    requires q.abortRequested
    ensures Play(q, ops).abortRequested
  {
    if ops != [] {
      StaysAborted(q, ops[..|ops| - 1]);
      StillAborted(Play(q, ops[..|ops| - 1]), ops[|ops| - 1]);
    }
  }

  lemma StillAborted(q: Queue, op: Op)
    requires q.abortRequested
    ensures Do(q, op).abortRequested
  {
    DrainKeepsFlags(q);
    match op
    case DoFinish(id) => DrainKeepsFlags(q.(running := q.running - {id}));
    case _ =>
  }

  lemma {:induction false} DrainKeepsFlags(q: Queue)
    ensures Drain(q).abortRequested == q.abortRequested
    decreases |q.pending|
  {
    if |q.running| < q.concurrency && |q.pending| > 0 { DrainKeepsFlags(StartNext(q)); }
  }

  // ---- The queue as an object ----

  method AbortLanes(running: map<string, Lane>) returns (lanes: map<string, Lane>)
    ensures lanes == map id | id in running :: running[id].(aborted := true)
  {
    lanes := running;
    var todo := running.Keys;
    while todo != {}
      invariant todo <= lanes.Keys == running.Keys
      invariant forall id | id in lanes :: lanes[id] == if id in todo then running[id] else running[id].(aborted := true)
      decreases |todo|
    {
      var id :| id in todo;
      todo := todo - {id};
      lanes := lanes[id := lanes[id].(aborted := true)];
    }
  }

  class SingleJobQueue {
    const concurrency: nat
    const maximumQueued: nat
    var running: map<string, Lane>
    var pending: seq<Entry>
    var reservedCount: int
    var accepting: bool
    var abortRequested: bool
    var reservations: seq<ReservationState>
    ghost var admitted: seq<Entry>
    ghost var started: seq<Entry>
    var tickets: nat

    ghost function Now(): Queue
      reads this
    {
      Queue(concurrency, maximumQueued, running, pending, reservedCount, accepting, abortRequested, reservations, admitted, started)
    }

    ghost predicate Valid()
      reads this
    {
      Inv(Now()) && tickets == |admitted|
    }

    constructor (concurrency: nat, maximumQueued: nat)
      requires concurrency >= 1 && maximumQueued >= 1
      ensures Valid() && Now() == Fresh(concurrency, maximumQueued)
    {
      this.concurrency, this.maximumQueued := concurrency, maximumQueued;
      running, pending, reservedCount, accepting, abortRequested, reservations := map[], [], 0, true, false, [];
      admitted, started, tickets := [], [], 0;
    }

    method ReserveSlot() returns (rejection: Option<Rejection>)
      requires Valid()
      modifies this
      ensures Valid() && (Now(), rejection) == Reserve(old(Now()))
    {
      ReserveKeeps(Now());
      if !accepting { return Some(QueueClosed); }
      if |pending| + reservedCount >= maximumQueued { return Some(QueueFull); }
      reservedCount := reservedCount + 1;
      reservations := reservations + [RESERVED];
      return None;
    }

    method Consume(r: nat) returns (consumed: bool)
      requires Valid()
      modifies this
      ensures Valid() && Now() == Leave(old(Now()), r, CONSUMED) && consumed == Live(old(Now()), r)
    {
      LeaveKeeps(Now(), r, CONSUMED);
      if r >= |reservations| || reservations[r] != RESERVED { return false; }
      reservations := reservations[r := CONSUMED];
      reservedCount := reservedCount - 1;
      return true;
    }

    method Release(r: nat)
      requires Valid()
      modifies this
      ensures Valid() && Now() == Leave(old(Now()), r, RELEASED)
    {
      LeaveKeeps(Now(), r, RELEASED);
      if r >= |reservations| || reservations[r] != RESERVED { return; }
      reservations := reservations[r := RELEASED];
      reservedCount := reservedCount - 1;
    }

    method EnqueueJob(id: string, reservation: Option<nat>) returns (rejection: Option<Rejection>)
      requires Valid()
      modifies this
      ensures Valid() && (Now(), rejection) == Enqueue(old(Now()), id, reservation)
    {
      EnqueueKeeps(Now(), id, reservation);
      if !accepting {
        if reservation.Some? { Release(reservation.value); }
        return Some(QueueClosed);
      }
      if reservation.Some? {
        var consumed := Consume(reservation.value);
        if !consumed { return Some(BadReservation); }
      }
      if reservation.None? && |pending| + reservedCount >= maximumQueued { return Some(QueueFull); }
      if id in running || exists i :: 0 <= i < |pending| && pending[i].id == id { return Some(DuplicateJob); }
      var entry := Entry(id, tickets);
      pending := pending + [entry];
      tickets := tickets + 1;
      admitted := admitted + [entry];
      return None;
    }

    method StartPending()
      requires Valid() && |running| < concurrency && pending != []
      modifies this
      ensures Valid() && Now() == StartNext(old(Now()))
    {
      StartNextKeeps(Now());
      var entry := pending[0];
      pending := pending[1..];
      running := running[entry.id := Lane(entry.ticket, abortRequested)];
      started := started + [entry];
    }

    method DrainLanes()
      requires Valid()
      modifies this
      ensures Valid() && Now() == Drain(old(Now()))
    {
      ghost var before := Now();
      while |running| < concurrency && |pending| > 0
        invariant Valid() && Drain(Now()) == Drain(before)
        decreases |pending|
      {
        StartPending();
      }
    }

    method FinishJob(id: string)
      requires Valid()
      modifies this
      ensures Valid() && Now() == Finish(old(Now()), id)
    {
      if id !in running { return; }
      FinishKeeps(Now(), id);
      ghost var before := Now();
      running := running - {id};
      assert running.Keys == before.running.Keys - {id};
      assert |running| == |running.Keys| <= |before.running.Keys| == |before.running|;
      DrainLanes();
    }

    method StopAcceptingJobs()
      requires Valid()
      modifies this
      ensures Valid() && Now() == StopAccepting(old(Now()))
    {
      accepting := false;
    }

    method AbortAll()
      requires Valid()
      modifies this
      ensures Valid() && Now() == Abort(old(Now()))
    {
      AbortKeeps(Now());
      var lanes := AbortLanes(running);
      abortRequested, running := true, lanes;
    }
  }
}
