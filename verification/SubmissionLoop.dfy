// One Salesforce run: submit, poll until done or out of time, and classify how it ended
// (runAsyncSalesforceDeployment of src/deploy/salesforce-deployment.ts), together with the
// status the coordinator records for each ending.
module SubmissionLoop {
  import opened Options
  import opened DeploymentModel
  import opened DeploymentSteps

  datatype StartAnswer = StartNotLaunched | StartFailed | StartAnswered(answer: Report)

  datatype PollAnswer = PollFailed | Polled(report: Report)

  // The environment of one run: what aborts it, what Salesforce answers, and how long each
  // command takes. `beforeSubmit` is the caller's hook.
  datatype World = World(
    abortedFirst: bool, beforeSubmitThrows: bool, abortedSecond: bool,
    start: StartAnswer, startTakes: nat,
    poll: nat -> PollAnswer, pollTakes: nat -> nat)

  datatype Exit =
    | NeverSubmitted                           // thrown before the start command
    | NotLaunched                              // the start command did not run
    | Success(report: Report)
    | DeployFailed
    | StateUnknown(deploymentId: Option<string>)

  const MAXIMUM_INTERVAL_MS: nat := 5_000

  predicate TerminalStatus(status: string)
  {
    status == "Succeeded" || status == "Failed" || status == "Canceled" || status == "SucceededPartial"
  }

  function ToProgress(r: Report, phase: Kind, deploymentId: string): Progress
  {
    var status := r.status.GetOr("Queued");
    Progress(phase, deploymentId, status, r.done.GetOr(TerminalStatus(status)), r.success, r.checkOnly, 0)
  }

  // The report does not contradict the id and the kind of the run.
  predicate ReportMatches(r: Report, deploymentId: string, phase: Kind)
  {
    && (r.id.Some? ==> r.id.value == deploymentId)
    && (r.checkOnly.Some? ==> r.checkOnly.value == (phase == DryRun))
  }

  // ---- What a report means, said of its fields ----

  // It answers for this run: another id or another kind of run is not named.
  predicate Answers(r: Report, id: string, phase: Kind)
  {
    (r.id.None? || r.id == Some(id)) && (r.checkOnly.None? || r.checkOnly == Some(phase == DryRun))
  }

  // Salesforce has finished; a report that does not say so is judged by its status.
  predicate SaysOver(r: Report)
  {
    r.done == Some(true)
    || (r.done.None? && r.status in {Some("Succeeded"), Some("SucceededPartial"), Some("Failed"), Some("Canceled")})
  }

  predicate SaysWell(r: Report)
  {
    r.success != Some(false) && r.status in {Some("Succeeded"), Some("SucceededPartial")}
  }

  lemma ReportMeans(r: Report, id: string, phase: Kind)
    ensures ReportMatches(r, id, phase) <==> Answers(r, id, phase)
    ensures ToProgress(r, phase, id).done <==> SaysOver(r)
    ensures ReportsSuccess(ToProgress(r, phase, id)) <==> SaysWell(r)
  {
  }

  // An answer for this run that says the run is over, and how.
  predicate Concludes(a: PollAnswer, id: string, phase: Kind)
  {
    a.Polled? && Answers(a.report, id, phase) && SaysOver(a.report)
  }

  predicate ConcludesWell(a: PollAnswer, id: string, phase: Kind)
  {
    Concludes(a, id, phase) && SaysWell(a.report)
  }

  // An answer for this run that says the run goes on.
  predicate GoesOn(a: PollAnswer, id: string, phase: Kind)
  {
    a.Polled? && Answers(a.report, id, phase) && !SaysOver(a.report)
  }

  function Min(a: int, b: int): int { if a < b then a else b }

  // The pause after the k-th poll: half as long again each time, up to five seconds.
  function Pause(first: nat, k: nat): nat
  {
    if k == 0 then first else Min((3 * Pause(first, k - 1) + 1) / 2, MAXIMUM_INTERVAL_MS)
  }

  function TotalPause(first: nat, k: nat): nat
  {
    if k == 0 then 0 else TotalPause(first, k - 1) + Pause(first, k - 1)
  }

  lemma {:induction false} PausesAreSettled(k: nat)
    requires k >= 4
    ensures Pause(1_000, k) == 5_000
  {
    if k == 4 {
      assert Pause(1_000, 1) == 1_500;
      assert Pause(1_000, 2) == 2_250;
      assert Pause(1_000, 3) == 3_375;
    } else {
      PausesAreSettled(k - 1);
    }
  }

  lemma {:induction false} DefaultPausesAddUp(k: nat)
    ensures TotalPause(1_000, k) >= 5_000 * k - 11_875
  {
    if k == 0 {
    } else if k <= 4 {
      assert Pause(1_000, 1) == 1_500;
      assert Pause(1_000, 2) == 2_250;
      assert Pause(1_000, 3) == 3_375;
      DefaultPausesAddUp(k - 1);
      assert TotalPause(1_000, 1) == 1_000 && TotalPause(1_000, 2) == 2_500 && TotalPause(1_000, 3) == 4_750;
    } else {
      DefaultPausesAddUp(k - 1);
      PausesAreSettled(k - 1);
    }
  }

  lemma {:induction false} PausesArePositive(first: nat, k: nat)
    requires first >= 1
    ensures Pause(first, k) >= 1
  {
    if k > 0 { PausesArePositive(first, k - 1); }
  }

  // When the k-th poll may begin: pauses are cut at the deadline, commands are not.
  function Clock(w: World, deadline: nat, first: nat, k: nat): nat
  {
    if k == 0 then w.startTakes
    else
      var time := Clock(w, deadline, first, k - 1) + w.pollTakes(k - 1);
      time + Min(Pause(first, k - 1), if time < deadline then deadline - time else 0)
  }

  // The first `k` answers say that the run goes on.
  ghost predicate Polling(w: World, phase: Kind, id: string, k: nat)
  {
    forall i: nat | i < k :: GoesOn(w.poll(i), id, phase)
  }

  // All of the first `k` polls began before the deadline.
  predicate InTime(w: World, deadline: nat, first: nat, k: nat)
  {
    k == 0 || Clock(w, deadline, first, k - 1) < deadline
  }

  // What had to be seen for each ending once `polls` polls were made for run `id`: the last
  // answer was final, or was lost or none for this run, or the time was up.
  ghost predicate Justified(w: World, deadline: nat, first: nat, phase: Kind, exit: Exit, id: string, polls: nat)
  {
    match exit
    case Success(report) =>
      && polls > 0 && Polling(w, phase, id, polls - 1) && InTime(w, deadline, first, polls)
      && w.poll(polls - 1) == Polled(report) && ConcludesWell(w.poll(polls - 1), id, phase)
    case DeployFailed =>
      && polls > 0 && Polling(w, phase, id, polls - 1) && InTime(w, deadline, first, polls)
      && Concludes(w.poll(polls - 1), id, phase) && !ConcludesWell(w.poll(polls - 1), id, phase)
    case StateUnknown(known) =>
      && known == Some(id)
      && (|| (Polling(w, phase, id, polls) && InTime(w, deadline, first, polls) && deadline <= Clock(w, deadline, first, polls))
          || (&& polls > 0 && Polling(w, phase, id, polls - 1) && InTime(w, deadline, first, polls)
              && (w.poll(polls - 1).PollFailed? || !Answers(w.poll(polls - 1).report, id, phase))))
    case _ => false
  }

  // Hence the answers and the clock decide the ending.
  lemma EndingIsDetermined(w: World, deadline: nat, first: nat, phase: Kind, id: string, e1: Exit, k1: nat, e2: Exit, k2: nat)
    requires Justified(w, deadline, first, phase, e1, id, k1) && Justified(w, deadline, first, phase, e2, id, k2)
    ensures e1 == e2 && k1 == k2
  {
    if k1 < k2 { NotAfterTheEnd(w, deadline, first, phase, id, e1, k1, e2, k2); }
    if k2 < k1 { NotAfterTheEnd(w, deadline, first, phase, id, e2, k2, e1, k1); }
  }

  lemma NotAfterTheEnd(w: World, deadline: nat, first: nat, phase: Kind, id: string, e1: Exit, k1: nat, e2: Exit, k2: nat)
    requires Justified(w, deadline, first, phase, e1, id, k1) && Justified(w, deadline, first, phase, e2, id, k2)
    ensures k2 <= k1
  {
    if k1 + 1 < k2 { TimePasses(w, deadline, first, k1, k2 - 1); }
  }

  lemma {:induction false} TimePasses(w: World, deadline: nat, first: nat, k: nat, l: nat)
    requires k <= l
    ensures Clock(w, deadline, first, k) <= Clock(w, deadline, first, l)
  {
    if k < l { TimePasses(w, deadline, first, k, l - 1); }
  }

  // The pauses alone take their time, unless the time is up.
  lemma {:induction false} PausesTakeTime(w: World, deadline: nat, first: nat, k: nat)
    ensures Clock(w, deadline, first, k) >= TotalPause(first, k) || Clock(w, deadline, first, k) >= deadline
  {
    if k > 0 { PausesTakeTime(w, deadline, first, k - 1); }
  }

  // So with the default pause only so many polls begin in time.
  lemma PollsAreFew(w: World, waitMinutes: nat, polls: nat)
    requires InTime(w, Timeout(waitMinutes), 1_000, polls)
    ensures polls <= 12 * waitMinutes + 3
  {
    if polls > 0 {
      PausesTakeTime(w, Timeout(waitMinutes), 1_000, polls - 1);
      DefaultPausesAddUp(polls - 1);
    }
  }

  function Timeout(waitMinutes: nat): nat { waitMinutes * 60 * 1_000 }

  // How the loop ends on an answer of Salesforce for run `id`, if it does.
  predicate EndsOn(answer: PollAnswer, id: string, phase: Kind, exit: Exit)
  {
    match exit
    case Success(report) => answer == Polled(report) && ConcludesWell(answer, id, phase)
    case DeployFailed => Concludes(answer, id, phase) && !ConcludesWell(answer, id, phase)
    case StateUnknown(known) => known == Some(id) && (answer.PollFailed? || !Answers(answer.report, id, phase))
    case _ => false
  }

  lemma EndsHere(w: World, deadline: nat, first: nat, phase: Kind, id: string, k: nat, exit: Exit)
    requires Polling(w, phase, id, k) && InTime(w, deadline, first, k + 1)
    requires EndsOn(w.poll(k), id, phase, exit)
    ensures Justified(w, deadline, first, phase, exit, id, k + 1)
  {
  }

  method Examine(answer: PollAnswer, id: string, phase: Kind) returns (ending: Option<Exit>)
    ensures ending.None? <==> GoesOn(answer, id, phase)
    ensures ending.Some? ==> EndsOn(answer, id, phase, ending.value)
  {
    if answer.PollFailed? { return Some(StateUnknown(Some(id))); }
    ReportMeans(answer.report, id, phase);
    if !ReportMatches(answer.report, id, phase) { return Some(StateUnknown(Some(id))); }
    var progress := ToProgress(answer.report, phase, id);
    if !progress.done { return None; }
    if !ReportsSuccess(progress) { return Some(DeployFailed); }
    return Some(Success(answer.report));
  }

  // The polling loop for a run whose id is known.
  method PollUntilDone(w: World, deadline: nat, phase: Kind, id: string, firstPause: nat)
    returns (exit: Exit, polls: nat)
    requires firstPause >= 1
    ensures Justified(w, deadline, firstPause, phase, exit, id, polls)
  {
    var time := w.startTakes;
    var pause := firstPause;
    polls := 0;
    while true
      invariant pause == Pause(firstPause, polls) && time == Clock(w, deadline, firstPause, polls)
      invariant Polling(w, phase, id, polls) && InTime(w, deadline, firstPause, polls)
      decreases deadline - time
    {
      PausesArePositive(firstPause, polls);
      if deadline <= time { return StateUnknown(Some(id)), polls; }
      var answer := w.poll(polls);
      time := time + w.pollTakes(polls);
      polls := polls + 1;
      var ending := Examine(answer, id, phase);
      if ending.Some? {
        EndsHere(w, deadline, firstPause, phase, id, polls - 1, ending.value);
        return ending.value, polls;
      }
      var remaining := if time < deadline then deadline - time else 0;
      time := time + Min(pause, remaining);
      pause := Min((3 * pause + 1) / 2, MAXIMUM_INTERVAL_MS);
    }
  }

  // How a run ends is justified by what was seen: nothing counts as not submitted unless the
  // start command did not run, failure and success need a final report for this run, and with
  // the default pause it takes at most 12 polls a minute and 3 more.
  method RunAsync(w: World, waitMinutes: nat, phase: Kind, firstPause: nat) returns (exit: Exit, polls: nat)
    requires firstPause >= 1
    ensures exit.NeverSubmitted? <==> w.abortedFirst || w.beforeSubmitThrows || w.abortedSecond
    ensures exit.NotLaunched? <==> !exit.NeverSubmitted? && w.start.StartNotLaunched?
    ensures !exit.NeverSubmitted? && HasId(w) ==>
      Justified(w, Timeout(waitMinutes), firstPause, phase, exit, w.start.answer.id.value, polls)
    ensures !exit.NeverSubmitted? && !exit.NotLaunched? && !HasId(w) ==> exit == StateUnknown(None)
    ensures !HasId(w) || exit.NeverSubmitted? ==> polls == 0
    ensures firstPause == 1_000 ==> polls <= 12 * waitMinutes + 3
  {
    polls := 0;
    if w.abortedFirst || w.beforeSubmitThrows || w.abortedSecond { return NeverSubmitted, polls; }
    match w.start {
      case StartNotLaunched => return NotLaunched, polls;
      case StartFailed => return StateUnknown(None), polls;
      case StartAnswered(answer) =>
        if answer.id.None? { return StateUnknown(None), polls; }
        exit, polls := PollUntilDone(w, Timeout(waitMinutes), phase, answer.id.value, firstPause);
        if firstPause == 1_000 { PollsAreFew(w, waitMinutes, polls); }
    }
  }

  // The start command was answered with the id of the run.
  predicate HasId(w: World) { w.start.StartAnswered? && w.start.answer.id.Some? }

  // ---- What the coordinator records ----

  // The status a failed run is given; `ambiguous` is the approved-deployment task's extra
  // reading of network-like messages.
  function RecordedStatus(exit: Exit, ambiguous: bool): Option<Status>
  {
    match exit
    case Success(_) => None
    case StateUnknown(_) => Some(ReconcileRequired)
    case _ => Some(if ambiguous then ReconcileRequired else Status.Failed)
  }

  // The start command may have run.
  predicate MayBeSubmitted(w: World)
  {
    !w.abortedFirst && !w.beforeSubmitThrows && !w.abortedSecond && !w.start.StartNotLaunched?
  }

  // The last of the polls brought a final report of this run ...
  predicate SeenToEnd(w: World, phase: Kind, polls: nat)
  {
    MayBeSubmitted(w) && HasId(w) && polls > 0 && Concludes(w.poll(polls - 1), w.start.answer.id.value, phase)
  }

  // ... a good one.
  predicate SeenToEndWell(w: World, phase: Kind, polls: nat)
  {
    SeenToEnd(w, phase, polls) && SaysWell(w.poll(polls - 1).report)
  }

  // A run is taken as a success exactly if its last report ends it well. Every run that may
  // have been submitted and was not seen to end goes to reconciliation; the others are recorded
  // as failed unless their message is taken for a network failure.
  method RunAndRecord(w: World, waitMinutes: nat, phase: Kind, ambiguous: bool) returns (recorded: Option<Status>, polls: nat)
    ensures recorded.None? <==> SeenToEndWell(w, phase, polls)
    ensures MayBeSubmitted(w) && !SeenToEnd(w, phase, polls) ==> recorded == Some(ReconcileRequired)
    ensures recorded == Some(Status.Failed)
      <==> !ambiguous && (!MayBeSubmitted(w) || (SeenToEnd(w, phase, polls) && !SeenToEndWell(w, phase, polls)))
    ensures recorded.Some? ==> recorded.value in {Status.Failed, ReconcileRequired}
    ensures polls <= 12 * waitMinutes + 3
  {
    var exit: Exit;
    exit, polls := RunAsync(w, waitMinutes, phase, 1_000);
    recorded := RecordedStatus(exit, ambiguous);
  }

  // ---- withoutWait ----

  function Unwaited(args: seq<string>): (r: seq<string>)
    ensures "--wait" !in r && "--async" !in r
    decreases |args|
  {
    if args == [] then []
    else if args[0] == "--wait" then if |args| == 1 then [] else Unwaited(args[2..])
    else if args[0] == "--async" then Unwaited(args[1..])
    else [args[0]] + Unwaited(args[1..])
  }

  method WithoutWait(args: seq<string>) returns (result: seq<string>)
    ensures result == Unwaited(args)
    ensures "--wait" !in result && "--async" !in result
  {
    result := [];
    var index := 0;
    while index < |args|
      invariant index <= |args| + 1
      invariant result + Unwaited(if index <= |args| then args[index..] else []) == Unwaited(args)
    {
      assert args[index..][1..] == args[index + 1..];
      if args[index] == "--wait" {
        if index + 1 < |args| { assert args[index..][2..] == args[index + 2..]; }
        index := index + 2;
      } else {
        if args[index] != "--async" { result := result + [args[index]]; }
        index := index + 1;
      }
    }
  }
}
