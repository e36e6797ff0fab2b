# SF Unlucky Deploy: verified model

A Dafny model of the parts of SF Unlucky Deploy that decide what is compared, what is deployed and
how often. It covers four areas.

* **The deployment protocol** (`src/deploy`). Job rows, submission attempts and approvals are one
  database value; every transaction or guarded `UPDATE` is one atomic step (`DeploymentSteps`).
  Request handlers, queue workers with their Salesforce run, completion and its retries,
  reconciliation, administrator binding, recovery, expiry and rejection are actors that take one
  step per `await` (`DeploymentProtocol`). Any interleaving of any number of processes is a run (recovery excludes workers, see below);
  writes may be lost, answers to committed writes may be lost, requests may be repeated, and any
  process may die. `DeploymentRuns` proves what the repositories guarantee to arbitrary callers,
  `DeploymentSafety` to `DeploymentPlans` what the whole program guarantees, `DeploymentLiveness` and
  `DeploymentSettling` what it can always still do. `DeploymentTransitions`, `DeploymentApproval`,
  `DeploymentReports` and `QuickDeploy` say of single decisions, in terms of rows and reports alone,
  when they are taken and what they record.
  `DeploymentStore` and `DeploymentCompletion` are the same operations as objects whose fields are
  updated in place.
* **The two XML comparisons** (`src/metadata`). `XmlDiff`/`XmlCompare` model the recursive
  comparison of parsed values, `LargeXml`/`XmlSummarizer` the streaming one for large files: parser
  callbacks over a stack of frames, keeping only digests, identities and previews. The digest is an
  idealised, injective function of what is fed to it. The rest of the cluster proves when the two
  give one verdict, exactly; `XmlKinds` says what each kind of change means and `XmlLayout` that
  indentation never matters. `TextNormalization`, `RangeDeletion` and `PackageChildFilter` prove
  the streaming loops next to them equal to their whole-text definitions for every cut into chunks,
  and `Comparator` carries the results up to components and summaries.
* **Scheduling and caching.** `JobQueue` and `JobAdmission` model reservations, lanes, order and abort;
  `CacheLocks`, `GitCache`, `GitCacheQuota`, `GitCacheEviction` and `GitCacheStore` model the Git cache between its
  awaits: waiting lines per key, eviction, the limit per repository and the total limit.
* **Encodings and paths.** The payload digest framing (`PayloadDigest`), the 18-character org id
  (`OrgIdentifier`), the collision check on Git trees (`GitTree`) and the flattening of Apex classes
  (`ApexFlattening`).

Verify with `dafny verify dfyconfig.toml`.

## Conventions

Row ids (UUIDs in the program) are positions in the tables, times are integers, and permission
checks are booleans in the request. Code that updates objects or loops over mutable lists appears as
a class or a method with loop invariants, proved equal to a function of the old state; the theorems
are about those functions. Any number of processes may run at once, except during recovery: it
begins only when no worker lives and until it ends nothing is enqueued, which the owner lock taken
before it (`src/app/runtime.ts:104`) and the closed queue at shutdown (`src/app/runtime.ts:308-330`)
amount to. `Now()` and `Contents()` give the value of an object's fields.

## Where the code does less than one would expect

* The two XML comparisons do not agree on all documents. An identity value of 500 characters or more
  is replaced by its digest in the streaming comparison, while several identity values are joined
  with `|` in both. `XmlDisagreement.AgreementIsExact` gives the exact condition,
  `XmlDisagreement.PlainDocumentsAgree` a simple sufficient one (every order-insensitive group below
  the root has identities that are short, or that cannot be taken for a digest and hold no `|` where
  several are joined), and
  `XmlDisagreement.ProfilesCanDisagree` and `XmlDisagreement.LabelsCanDisagree` are documents of
  registered types on which the verdicts differ in either direction.
* A failed write of a dry run's artifacts is only a warning, so the job can reach
  `APPROVAL_PENDING` without them (`DeploymentScenarios.UnpreparedDryRunCanFinish`). A dry run is
  prepared exactly if such a write committed (`DeploymentArtifacts.PreparedExactlyIfStored`), and an
  unprepared one that waits for approval can never be approved
  (`DeploymentRuns.UnpreparedIsNeverApproved`).
* The guard of a status transition is the status alone: as far as the repositories are concerned, a
  job that has submitted something can be failed, exactly when it has an active attempt and is not
  closed (`DeploymentRuns.FailingSubmittedExactly`). Recovery never does that: it runs while the owner
  lock keeps other runtimes out and nothing is enqueued, and fails only jobs that never began a
  submission (`DeploymentRecovery.RecoveryFailsOnlyUnsubmitted`).
* No run of the program reaches `VALIDATED_PENDING_EXECUTION` from an empty database
  (`DeploymentTheorems.StatusesAreBacked`); the expiry loop only concerns older rows.
* A terminal attempt can be reopened, by an unfinished reconciliation report for exactly this
  attempt and by nothing else (`DeploymentRuns.ReopenedExactly`, with a run that leads there in
  `DeploymentScenarios.TerminalAttemptReopens`). While its job is running it is final
  (`DeploymentRuns.TerminalWhileRunning`).
* Normalising a text twice drops a second byte-order mark
  (`TextNormalization.NormalizeIsIdempotent`).
* The older payload digest does not tell a separator from content
  (`PayloadDigest.OldStreamIsAmbiguous`): with paths free of NUL bytes a list shares its stream with
  no other exactly if it is empty or one file with at most one NUL in its content
  (`PayloadDigest.OldStreamIsUnmistakableExactly`), and lists of files without NUL bytes are always
  told apart (`PayloadDigest.OldStreamDecidesText`).
* The total limit of the Git cache can be exceeded when the directory of a refused acquire cannot be
  removed: it is then recorded at the full limit per repository. `GitCacheQuota.StepKeepsTotal` says
  exactly when a step does that, `GitCacheQuota.FailedRemovalOverflows` is a run.

## Model

| member | source | states |
|---|---|---|
| `DeploymentModel.TransitionsLeadToClosed` | src/deploy/deployment-state-machine.ts:4-39 | Every allowed transition strictly lowers a rank that is at most 4, and a status is closed exactly when no transition leaves it. |
| `DeploymentRuns.StepKeeps` | src/deploy/deployment-job-repository.ts:94-760 | Every repository step keeps the database invariant, with arbitrary arguments except that an attempt is begun with a validation id exactly for a Quick Deploy; rows move only forwards (versions, remote ids, closed jobs, superseded attempts). |
| `DeploymentRuns.BeginKeepsExactly` | src/deploy/deployment-attempt-repository.ts:51-94 | Whatever intent is stored, the invariant is kept exactly unless a validation is begun with a validation id. |
| `DeploymentRuns.AttemptLists` | src/deploy/deployment-attempt-repository.ts:57-92 | In every run a job's attempt list is empty, a single attempt, or a successful terminal VALIDATE followed by one DEPLOY. |
| `DeploymentRuns.OneRealDeployment` | src/deploy/deployment-attempt-repository.ts:66-73 | A job has at most one attempt that is not a validation. |
| `DeploymentRuns.OneDeploymentPerDryRun` | src/deploy/deployment-job-repository.ts:461-545 | However often it is approved, at most one deploy job comes out of a dry run. |
| `DeploymentRuns.OneJobPerRequest` | src/deploy/deployment-job-repository.ts:100-182 | At most one job per kind, user and Idempotency-Key. |
| `DeploymentRuns.RepeatedRequestFindsJob` | src/deploy/deployment-job-repository.ts:101-115 | A repeated dry-run request, after any further steps, returns the job of the first one and changes nothing. |
| `DeploymentRuns.RepeatedDirectFindsJob` | src/deploy/deployment-job-repository.ts:169-182 | A repeated direct deployment returns the job of the first one and changes nothing, whatever its user may do by then. |
| `DeploymentRuns.ClosedIsFrozen` | src/deploy/deployment-job-repository.ts:298-399 | Once a job is APPROVAL_PENDING, SUCCEEDED or FAILED, no step of any caller changes its row, its attempts or their number. |
| `DeploymentRuns.ApprovalsAreBacked` | src/deploy/deployment-job-repository.ts:410-551 | Every approval stays backed by a prepared v2 dry run with the approved checksum, and every attempt of its deploy job carries that dry run's target identity. |
| `DeploymentRuns.AtMostFourTransitions` | src/deploy/deployment-state-machine.ts:4-31 | A job's status changes at most four times in any run. |
| `DeploymentRuns.LifecycleFacts` | src/deploy/deployment-state-machine.ts:17-39 | A completion time is set exactly in the finished statuses, and a queued job has no attempt. |
| `DeploymentRuns.AttemptHistory` | src/deploy/deployment-attempt-repository.ts:96-190 | Versions never fall, an equal version means an untouched row, a remote id once set stays, a superseded attempt is final. |
| `DeploymentRuns.CompletionIsCurrent` | src/deploy/deployment-job-repository.ts:307-319 | A completion naming an attempt and a version commits only if that attempt is still active and unwritten since that version. |
| `DeploymentRuns.ReopenedExactly` | src/deploy/deployment-job-repository.ts:645-697 | A call takes an attempt out of the terminal state exactly if it is a committing, unfinished reconciliation report that names it. |
| `DeploymentRuns.TerminalWhileRunning` | src/deploy/deployment-attempt-repository.ts:169-190 | A terminal attempt is unchanged as long as its job is running. |
| `DeploymentRuns.FailingSubmittedExactly` | src/deploy/deployment-job-repository.ts:298-327 | Writing FAILED fails a job that has attempts exactly if it has an active attempt and is not closed. |
| `DeploymentRuns.PreparedExactly` | src/deploy/deployment-job-repository.ts:372-399 | A dry run becomes prepared by a committing write of its artifacts and by no other call. |
| `DeploymentRuns.UnpreparedIsNeverApproved` | src/deploy/deployment-job-repository.ts:435-437 | In every database, an unprepared dry run that waits for approval is refused by every request, then and after any further calls. |
| `DeploymentTransitions.TransitionCommitsExactly` | src/deploy/deployment-job-repository.ts:298-319 | A status transition commits exactly for an existing job whose status allows it, of the right kind to run so, and for the current version of the attempt that is named, if one is. |
| `DeploymentTransitions.TransitionRecords` | src/deploy/deployment-job-repository.ts:320-341 | A committed transition keeps every other row and the evidence of its own, records the completion time it was told or else the present, and keeps a remote id and status it was not told. |
| `DeploymentTransitions.PlanRecords` | src/deploy/deployment-job-repository.ts:274-287 | An execution plan is recorded exactly in a running deployment and touches nothing else. |
| `DeploymentTransitions.ArtifactsRecord` | src/deploy/deployment-job-repository.ts:358-756 | Artifacts are stored once in a running dry run, and in a running direct deployment but never in an approved one. |
| `DeploymentTransitions.TimesInEveryRun` | src/deploy/deployment-state-machine.ts:17-39 | In every run a job has a start time from the moment it runs, and both times once it ended otherwise than by failing. |
| `DeploymentApproval.ApprovalGrantedExactly` | src/deploy/deployment-job-repository.ts:410-460 | An approval is granted exactly to a confirmed and authorised request that names, with its checksum and alias, a prepared v2 dry run with a recorded org that waits for approval since at most thirty minutes and whose plan and result were read. |
| `DeploymentApproval.RefusalReasons` | src/deploy/deployment-job-repository.ts:410-460 | A refusal is PAYLOAD_CHANGED or INVALID_ARGUMENT under exactly the conditions given, and APPROVAL_DENIED otherwise. |
| `DeploymentApproval.GrantedDeploysTheDryRun` | src/deploy/deployment-job-repository.ts:461-545 | The first granted request queues one deployment of what was validated, for whoever asked; a repeated one is answered with that job and changes nothing. |
| `DeploymentApproval.DryRunsAreCreatedExactly` | src/deploy/deployment-job-repository.ts:63-152 | A dry run is created exactly by a well-formed request whose key its user has not used; a used key gives the old job or a conflict. |
| `DeploymentApproval.DirectDeploymentsAreCreatedExactly` | src/deploy/deployment-job-repository.ts:154-228 | The same for direct deployments, which also need confirmation and, for a new key, the role. |
| `DeploymentApproval.DeploymentsAreConfirmed` | src/deploy/deployment-job-repository.ts:154-551 | A deployment enters the queue only by a confirmed direct request of a user who may deploy, or by a confirmed and authorised approval. |
| `DeploymentApproval.ApprovedWithinThirtyMinutes` | src/deploy/deployment-job-repository.ts:441-444 | In every run a deployment of a dry run was queued at most thirty minutes after that dry run completed. |
| `DeploymentReports.SubmissionRecordsExactly` | src/deploy/deployment-attempt-repository.ts:96-110 | A remote id is recorded exactly for the submitting, active attempt of a running job, in its own column, with a new version. |
| `DeploymentReports.BindingRecordsExactly` | src/deploy/deployment-attempt-repository.ts:112-167 | An administrator can name an id exactly for a submission in doubt of a job that awaits reconciliation, if no other attempt or job goes by that id, and none does then. |
| `DeploymentReports.UntrackedRecordsExactly` | src/deploy/deployment-job-repository.ts:597-632 | Progress without an attempt is accepted exactly for a running job that tracks none. |
| `DeploymentReports.ProgressAcceptedExactly` | src/deploy/deployment-attempt-repository.ts:169-190 | Progress is accepted exactly for the active, unfinished attempt of a running job, of the phase of its operation and under its id. |
| `DeploymentReports.ProgressRecordsExactly` | src/deploy/deployment-attempt-repository.ts:169-190 | The attempt becomes a success exactly if Salesforce is done, does not deny success and names one of the two good endings, and a failure exactly if it is done otherwise. |
| `DeploymentReports.ReportAcceptedExactly` | src/deploy/deployment-job-repository.ts:645-668 | A reconciliation report is accepted exactly for a job that awaits one and the current version of its active attempt. |
| `DeploymentReports.ReportRecordsExactly` | src/deploy/deployment-job-repository.ts:645-697 | It records success exactly if done and not denied, whatever status is named, and keeps the job waiting. |
| `DeploymentReports.ReconciliationFollowsReport` | src/deploy/deployment-service.ts:228-285 | Reconciliation writes a report down unless it answers for another kind of run, and fails or finishes the job as report, kind and preparation demand. |
| `QuickDeploy.QuickDeployExactly` | src/deploy/quick-deploy-eligibility.ts:60-67 | Quick Deploy, and no other mode, reuses a validation: on complete evidence the tracked one, which ended in success for the same payload, by its own id. |
| `QuickDeploy.ModesExactly` | src/deploy/quick-deploy-eligibility.ts:22-67 | Each of the four modes is chosen exactly under the stated condition on the columns of the dry run, the deployment and the tracked validation. |
| `QuickDeploy.IdentityComparisonIsPreorder` | src/salesforce/org-identity.ts:18-32 | Comparing org identities is reflexive and transitive, and symmetric exactly where the same attributes are recorded. |
| `QuickDeploy.RecordedIdentitiesAreCompared` | src/salesforce/org-identity.ts:18-32 | Fully recorded identities are the same org exactly if they are equal up to the case of the user name. |
| `DeploymentDiscipline.PermittedKeeps` | src/deploy/deployment-service.ts:52-134 | Every call the program's own services make keeps the stronger row facts that arbitrary callers could break (status fits kind, one attempt per job, evidence carried from the dry run). |
| `DeploymentSafety.EveryStepIsGood` | src/deploy/dry-run-service.ts:110-420 | Every step of every actor makes only permitted calls, rewrites only evidence of a job it is working on, and leaves the actor in a consistent stage. |
| `DeploymentInvariant.EventKeeps` | src/deploy/deployment-coordinator.ts:37-107 | Every event (request, step, fault, crash, recovery, retry) keeps the invariant of the whole system. |
| `DeploymentInvariant.PlayKeeps` | src/deploy/deployment-coordinator.ts:37-107 | The system invariant holds after every sequence of events. |
| `DeploymentTheorems.PlayIsRun` | src/deploy/deployment-job-repository.ts:47-60 | The database of every run of the processes is the database of a run of repository calls, so what the repositories guarantee holds of the program. |
| `DeploymentTheorems.ReachedByRepositories` | src/deploy/deployment-job-repository.ts:47-60 | Every state the processes reach has a database that repository calls alone reach from the empty one. |
| `DeploymentTheorems.BodiesRunOnce` | src/deploy/deployment-coordinator.ts:42-69 | A job's task body is entered at most once over all processes. |
| `DeploymentTheorems.StartedAtMostOnce` | src/deploy/salesforce-deployment.ts:139-151 | At most one start command is ever issued for a job, over all processes, crashes and repeated requests. |
| `DeploymentTheorems.StartsMatchIntents` | src/deploy/deployment-attempt-repository.ts:57-92 | Every start command belongs to the stored intent that is the job's active attempt, and validates exactly for dry runs. |
| `DeploymentTheorems.ApprovedPayloadIsDeployed` | src/deploy/deployment-service.ts:71-134 | Every attempt of an approved deployment carries the checksum and org of its approval and of its prepared v2 dry run. |
| `DeploymentTheorems.QuickDeployReusesOwnValidation` | src/deploy/quick-deploy-eligibility.ts:22-67 | A Quick Deploy start names the successful validation its own dry run tracked, for the same payload. |
| `DeploymentTheorems.StatusesAreBacked` | src/deploy/deployment-coordinator.ts:37-71 | A job is SUCCEEDED only as a deployment whose active attempt (if any) is no validation, APPROVAL_PENDING only as a dry run whose active attempt (if any) is one. |
| `DeploymentTheorems.ReconciliationApprovesPrepared` | src/deploy/deployment-service.ts:228-285 | Reconciliation is about to make a dry run approvable only if it is prepared. |
| `DeploymentTheorems.InDoubtExactlyWithoutId` | src/deploy/deployment-attempt-repository.ts:96-190 | An attempt is SUBMITTING exactly while its operation's own remote id is unset. |
| `DeploymentTheorems.EvidenceIsFrozen` | src/deploy/deployment-job-repository.ts:358-551 | Between any two moments of a run, a closed job's row and attempts are unchanged. |
| `DeploymentTheorems.ResultsAreNotLost` | src/deploy/deployment-completion.ts:27-119 | After complete() was called and while its process lives, the first write is under way, or the result is pending, or the job has finished, or its attempt moved on. |
| `DeploymentTheorems.FlushedOwesNothing` | src/deploy/deployment-completion.ts:70-77 | A process with nothing pending and no first write under way owes no result. |
| `DeploymentTheorems.CompletionNeverSubmits` | src/deploy/deployment-completion.ts:79-104 | No step of completing or retrying issues a start command, stores an intent or enters a body. |
| `DeploymentEligibility.RecheckedExactly` | src/deploy/deployment-service.ts:70-83 | The approved task goes on exactly if the dry run is still approvable and fresh and the package measured now is the approved one. |
| `DeploymentEligibility.VerdictIsObeyed` | src/deploy/deployment-service.ts:84-105 | It submits exactly on complete evidence with no tracked validation or a good one, reusing it exactly if possible and enabled, and leaves a validation in doubt to reconciliation. |
| `DeploymentEligibility.ApprovedStartsAreValidated` | src/deploy/quick-deploy-eligibility.ts:22-67 | In every reached state, behind every start command of an approved job stands a prepared dry run of the same payload and tests with a confirmed check-only success, and no validation of it is in doubt or failed. |
| `DeploymentPlans.StartsFollowPlans` | src/deploy/deployment-service.ts:90-134 | In every reached state the start command of an approved job is of the mode its row records and names the validation recorded there. |
| `DeploymentProgress.FailureIsRecorded` | src/deploy/deployment-coordinator.ts:88-107 | A failed run is left to reconciliation exactly if its outcome is unknown, under the remote id if one is known, and failed otherwise. |
| `DeploymentProgress.ThrowIsKept` | src/deploy/deployment-coordinator.ts:88-107 | What a task throws in its body is kept with the remote id of an unknown outcome and the mark of a reported failure. |
| `DeploymentProgress.FailedWriteIsFollowedUp` | src/deploy/deployment-completion.ts:43-67 | After a failed first write the result is forgotten exactly if it turns out stored or its attempt has moved on, and otherwise the job is handed to reconciliation. |
| `DeploymentProgress.CrashTakesItsOwn` | src/deploy/deployment-completion.ts:17-21 | A process that dies takes its actors and its pending results with it and leaves the database and every other process as they were. |
| `DeploymentLiveness.AcceptedJobsCanFinish` | src/deploy/deployment-coordinator.ts:37-71 | From every reached state a queued dry run or direct deployment can be finished with any payload and report, by one start command, its artifacts stored and its attempt a success. |
| `DeploymentLiveness.ApprovedJobsCanSucceed` | src/deploy/deployment-service.ts:67-134 | From every reached state the queued job of an approval can be deployed if the evidence of its dry run holds up, by a Quick Deploy exactly if the tracked validation can be reused. |
| `DeploymentLiveness.FromRequestToDeployment` | src/deploy/deployment-service.ts:52-134 | From every reached state in which nobody recovers any new valid request can be validated, approved and deployed, with the validated payload and exactly two start commands. |
| `DeploymentSettling.PendingResultsCanBeStored` | src/deploy/deployment-completion.ts:79-104 | From every reached state a pending result that the database would take can be stored and forgotten. |
| `DeploymentSettling.ReconciledAsReported` | src/deploy/deployment-service.ts:228-285 | From every reached state a job that awaits reconciliation under a known id can be settled as Salesforce reports. |
| `DeploymentSettling.BoundAndReconciled` | src/deploy/deployment-service.ts:180-226 | The same if the id was lost, once an administrator names one that is in use nowhere else. |
| `DeploymentSettling.RecoveryCanFinish` | src/deploy/deployment-job-repository.ts:758-778 | Whenever no worker lives recovery can be carried through, failing the queued jobs and sending the running ones to reconciliation. |
| `DeploymentRecovery.RecoveryFailsOnlyUnsubmitted` | src/deploy/deployment-job-repository.ts:758-778 | In every reached state a step of recovery fails a job only if it is still queued and has no attempt, whatever was listed and whatever fails. |
| `DeploymentRecovery.NobodyWorksDuringRecovery` | src/app/runtime.ts:308-335 | In every reached state in which a recovery is under way no worker lives. |
| `DeploymentArtifacts.PreparedExactlyIfStored` | src/deploy/dry-run-service.ts:217-239 | In every run a dry run is prepared exactly if a write of its artifacts committed. |
| `DeploymentArtifacts.ApprovalNeedsArtifacts` | src/deploy/dry-run-service.ts:221-232 | A dry run that waits for approval after a run in which no such write committed is refused by every later request. |
| `DeploymentScenarios.UnpreparedDryRunCanFinish` | src/deploy/dry-run-service.ts:217-239 | A run in which the write of the artifacts is lost and the dry run still becomes APPROVAL_PENDING. |
| `DeploymentScenarios.TerminalAttemptReopens` | src/deploy/deployment-job-repository.ts:645-697 | A database reached by repository calls in which a report that is not done takes a terminal attempt back to SUBMITTED. |
| `DeploymentStore.RecoveryIsComplete` | src/deploy/deployment-job-repository.ts:758-778 | Recovery leaves nothing queued or running, fails only jobs without attempts, sends exactly the running ones to reconciliation, and is idempotent. |
| `DeploymentStore.RowsAreTouchedExactly` | src/deploy/deployment-job-repository.ts:758-798 | Recovery and expiry change exactly the interrupted rows and those whose validation is older than thirty minutes, and of them only the status and its times. |
| `DeploymentStore.DeploymentStore.CreateIdempotentDryRun` | src/deploy/deployment-job-repository.ts:63-152 | Creates a dry run once per key, as its atomic step says, errors included; the store stays valid and its rows move only forwards. |
| `DeploymentStore.DeploymentStore.CreateDirect` | src/deploy/deployment-job-repository.ts:154-228 | Creates a direct deployment once per key after confirmation and role check; the store stays valid and its rows move only forwards. |
| `DeploymentStore.DeploymentStore.ChangeStatus` | src/deploy/deployment-job-repository.ts:298-356 | The guarded status transition with the attempt version check; the store stays valid and its rows move only forwards. |
| `DeploymentStore.DeploymentStore.StoreDryRunArtifacts` | src/deploy/deployment-job-repository.ts:358-399 | Artifacts are stored once, only in a running dry run; the store stays valid and its rows move only forwards. |
| `DeploymentStore.DeploymentStore.StoreDirectArtifacts` | src/deploy/deployment-job-repository.ts:699-756 | Artifacts of a running direct deployment; the store stays valid and its rows move only forwards. |
| `DeploymentStore.DeploymentStore.Approve` | src/deploy/deployment-job-repository.ts:410-570 | Approval checks in order, then one deploy job and one approval row, or the existing one; the store stays valid and its rows move only forwards. |
| `DeploymentStore.DeploymentStore.BeginAttempt` | src/deploy/deployment-attempt-repository.ts:51-94 | Stores a submission intent under the status and active-attempt guards; the store stays valid and its rows move only forwards. |
| `DeploymentStore.DeploymentStore.StoreSubmitted` | src/deploy/deployment-attempt-repository.ts:96-110 | Records the remote id of the active attempt of a running job; the store stays valid and its rows move only forwards. |
| `DeploymentStore.DeploymentStore.StoreProgress` | src/deploy/deployment-attempt-repository.ts:169-190 | Records progress with phase and id guards, ending the attempt when done; the store stays valid and its rows move only forwards. |
| `DeploymentStore.DeploymentStore.BindForReconciliation` | src/deploy/deployment-attempt-repository.ts:112-167 | Binds a remote id to an attempt without one, if no other row uses that id; the store stays valid and its rows move only forwards. |
| `DeploymentStore.DeploymentStore.StoreReport` | src/deploy/deployment-job-repository.ts:645-697 | Records a reconciliation report under the version guard, by its own status rule; the store stays valid and its rows move only forwards. |
| `DeploymentStore.DeploymentStore.RecoverInterruptedJobs` | src/deploy/deployment-job-repository.ts:758-778 | The recovery loop turns the table into the recovered table and counts the listed rows. |
| `DeploymentStore.DeploymentStore.ExpireValidatedPendingExecutions` | src/deploy/deployment-job-repository.ts:781-798 | The expiry loop fails exactly the rows past the deadline. |
| `DeploymentCompletion.DeploymentCompletion.Complete` | src/deploy/deployment-completion.ts:27-68 | After complete() the result is pending or settled, whatever failed; it is confirmed exactly if the transition commits and its answer comes, and a running job is finished or left to reconciliation unless a call failed or its attempt changed. |
| `DeploymentCompletion.DeploymentCompletion.RetryPending` | src/deploy/deployment-completion.ts:79-104 | Every pending entry is kept or settled; every entry that can be stored when the round begins, and whose calls do not fail, is stored and forgotten; only jobs with pending entries are written. |
| `DeploymentCompletion.DeploymentCompletion.Flush` | src/deploy/deployment-completion.ts:70-77 | Returns normally exactly when nothing is pending any more, so whenever every entry can be stored, and then everything that was pending is settled. |
| `SubmissionLoop.PollUntilDone` | src/deploy/salesforce-deployment.ts:165-193 | Success needs a last report of this run that says it is over, does not deny success and names a good ending, failure one that says it is over otherwise; an unknown state needs a lost or foreign answer, or the deadline, after reports that the run goes on. |
| `SubmissionLoop.EndingIsDetermined` | src/deploy/salesforce-deployment.ts:165-193 | The answers and the clock decide the ending and the number of polls. |
| `SubmissionLoop.RunAsync` | src/deploy/salesforce-deployment.ts:127-212 | A run counts as not submitted exactly if it stopped before the start command, as not launched exactly if that command did not start, as unknown without an id, and otherwise ends as its reports say, with the default pause after at most 12 polls a minute and 3 more. |
| `SubmissionLoop.RunAndRecord` | src/deploy/deployment-coordinator.ts:88-107 | A run is taken as a success exactly if its last report ends it well; one that may have been submitted and was not seen to end is recorded as RECONCILE_REQUIRED, the others as FAILED unless their message is ambiguous. |
| `SubmissionLoop.WithoutWait` | src/deploy/salesforce-deployment.ts:247-260 | No waiting or asynchronous flag is left in the arguments. |
| `XmlSemantics.RegisteredPoliciesAreTopLevel` | src/metadata/xml-semantics.ts:10-70 | Every registered policy drops the order only for collections directly below its root. |
| `XmlSemantics.DeepPathsKeepOrder` | src/metadata/xml-semantics.ts:76-86 | Deeper down no policy applies that ignores order, whatever text stands in path labels. |
| `XmlVerdict.CompareXmlVerdict` | src/metadata/xml-diff.ts:46-190 | compareXml reports no change exactly when the roots have the same name and agree: order-insensitive uniquely keyed groups as bags, everything else as it is. |
| `XmlVerdict.CompareXmlIsEquivalence` | src/metadata/xml-diff.ts:74-190 | "No change" is reflexive, symmetric and transitive. |
| `XmlVerdict.SameByIdentityIsPermutation` | src/metadata/xml-diff.ts:157-187 | Matching uniquely keyed items by identity is the same as equality of the bags of items. |
| `XmlMirror.DiffMirrors` | src/metadata/xml-diff.ts:74-124 | Comparing in the other direction gives the same changes with ADDED and REMOVED exchanged. |
| `XmlKinds.KindsExactly` | src/metadata/xml-diff.ts:74-190 | A change is reported exactly if a pair of values is met of which it is true: ADDED and REMOVED of a value on one side, MODIFIED of unequal values that are not both records, REORDERED of an order-sensitive collection with the same distinct identities in another order. |
| `XmlKinds.IdentityWithoutPolicy` | src/metadata/xml-diff.ts:190-212 | Where no policy applies an item is identified by the first generic name it has a text for, and in a registered type by nothing. |
| `XmlKinds.IdentityByPolicy` | src/metadata/xml-diff.ts:190-212 | Under a policy with one key an item is identified exactly by its text for that key. |
| `XmlKinds.PropertiesAreCompared` | src/metadata/xml-diff.ts:99-114 | The changes of two records are those of their properties, at paths labelled with the identity both share. |
| `XmlKinds.UnequalValuesAreModified` | src/metadata/xml-diff.ts:116-123 | Unequal values that are not both records, outside collections, are one MODIFIED at their path. |
| `XmlKinds.NewValueIsAdded` | src/metadata/xml-diff.ts:84-97 | A value on one side only is one ADDED or REMOVED at its path, or one for each item of a collection. |
| `XmlLayout.LayoutNeverMatters` | src/metadata/xml-diff.ts:56-72 | Line breaks, returns, tabs and spaces between elements, at any depth, change neither comparison with any document. |
| `XmlLayout.VisibleTextMatters` | src/metadata/large-xml-diff.ts:103-120 | Different text with a visible character beside the children of the root is a difference for both comparisons. |
| `XmlCompare.RemoveWhitespace` | src/metadata/xml-diff.ts:56-72 | The loop gives the value without formatting text. |
| `XmlCompare.CollectValue` | src/metadata/xml-diff.ts:74-124 | The comparison with accumulated lists gives the changes of the definition, whose kinds `XmlKinds.KindsExactly` pins. |
| `XmlCompare.CollectArray` | src/metadata/xml-diff.ts:130-190 | The loops over array items, by position or by identity, give the changes of the definition. |
| `XmlCompare.CompareDocuments` | src/metadata/xml-diff.ts:46-54 | The list of changes is empty exactly when the two documents are the same metadata. |
| `LargeXml.StackMachineSummarizes` | src/metadata/large-xml-diff.ts:89-164 | However text is cut, the callbacks end with the summary of the element tree, and fail exactly when depth or retained nodes exceed the limits. |
| `XmlAgreement.DigestDecidesValue` | src/metadata/large-xml-diff.ts:112-148 | Below the root, equal digests mean equal names and equal parsed values, and the other way round. |
| `XmlSameVerdict.LargeAgreesWithSmall` | src/metadata/large-xml-diff.ts:47-49 | If one document meets the agreement condition, the streaming and the recursive comparison give the same verdict. |
| `XmlIdentities.StreamedIdentity` | src/metadata/large-xml-diff.ts:128-138 | The identities of the streaming comparison are those of the parsed values with long texts replaced by their digests. |
| `XmlIdentities.IdentitiesCoincide` | src/metadata/large-xml-diff.ts:128-138 | With plain identities, two items have equal streamed identities exactly when their parsed identities are equal. |
| `XmlDisagreement.AgreementIsExact` | src/metadata/large-xml-diff.ts:112-169 | A document meets the agreement condition exactly if both comparisons agree on it against every document. |
| `XmlDisagreement.PlainDocumentsAgree` | src/metadata/large-xml-diff.ts:47-49 | For every metadata type, documents with plain identities get one verdict on both sides of the size threshold. |
| `XmlDisagreement.SeparatorInTextDisagrees` | src/metadata/xml-diff.ts:200-209 | Two items whose joined identities collide because a long text holds the separator: only the streaming comparison ignores their order. |
| `XmlDisagreement.DigestLookalikeDisagrees` | src/metadata/large-xml-diff.ts:134-136 | A short text that spells the digest of a long one: only the recursive comparison ignores the order. |
| `XmlDisagreement.ProfilesCanDisagree` | src/metadata/xml-semantics.ts:16 | Two profiles that only the small-file comparison finds different. |
| `XmlDisagreement.LabelsCanDisagree` | src/metadata/xml-semantics.ts:69 | Two label files that only the large-file comparison finds different. |
| `XmlSummarizer.Summarizer.OpenTag` | src/metadata/large-xml-diff.ts:94-102 | The opening callback pushes a frame or throws at the depth limit. |
| `XmlSummarizer.Summarizer.Text` | src/metadata/large-xml-diff.ts:103-111 | The text callback updates the top frame's hash, preview and blank flag. |
| `XmlSummarizer.Summarizer.CloseTag` | src/metadata/large-xml-diff.ts:112-160 | The closing callback folds the frame into its parent or the result, or throws at the limit of retained nodes. |
| `XmlSummarizer.SummarizeXml` | src/metadata/large-xml-diff.ts:89-164 | Succeeds exactly for trees within the limits and then gives their summary, however the text is delivered. |
| `XmlSummarizer.CompareLargeXml` | src/metadata/large-xml-diff.ts:39-87 | Gives compareXml's verdict whenever one of the documents meets the agreement condition. |
| `Comparator.SizeDoesNotMatter` | src/metadata/comparator.ts:325-451 | A file's verdict is the same on both sides of the size threshold, if an XML file meets the agreement condition. |
| `Comparator.FileVerdictIsSymmetric` | src/metadata/comparator.ts:299-455 | A file's verdict does not depend on the direction of the comparison. |
| `Comparator.FileVerdictExactly` | src/metadata/comparator.ts:305-455 | Two files are identical exactly if their bytes are, or their normal forms, or for XML the metadata (and, if strict, the normal forms). |
| `Comparator.LayoutOfTextNeverMatters` | src/metadata/comparator.ts:305-455 | Files with the same normal form are identical, of whatever kind and size. |
| `Comparator.ComponentVerdictExactly` | src/metadata/comparator.ts:219-278 | A component is ADDED or REMOVED exactly if it is in one snapshot only, and IDENTICAL exactly if it has the same files and each is identical. |
| `Comparator.SwapMirrorsComponents` | src/metadata/comparator.ts:219-278 | Swapping the sides swaps ADDED and REMOVED components and keeps the others. |
| `Comparator.SwapMirrorsSummary` | src/metadata/comparator.ts:548-563 | The counts of a comparison read in the other direction are those of the first with added and removed exchanged. |
| `Comparator.SummaryCounts` | src/metadata/comparator.ts:548-563 | The counts are the numbers of components on one side only, modified and identical, and add up. |
| `TextNormalization.NewlinesConcat` | src/metadata/xml-stream.ts:28-47 | Normalising a concatenation is normalising the parts, once a line feed that completes a carriage return is dropped. |
| `TextNormalization.NormalizeIsIdempotent` | src/metadata/comparator.ts:538-542 | Normalising twice is normalising once exactly unless the text starts with two byte-order marks. |
| `TextNormalization.TextHasher.Update` | src/metadata/normalized-text-hash.ts:12-30 | Feeding a chunk keeps the hasher equal to the normal form of all text so far. |
| `TextNormalization.NormalizedTextHash` | src/metadata/normalized-text-hash.ts:6-37 | The hash is that of the normal form of the whole text, and undefined exactly for input that is not text. |
| `TextNormalization.CompareLargeTexts` | src/metadata/comparator.ts:335-345 | Two runs of the streaming hash find two files identical exactly when the whole texts are equal in normal form, however each is cut, and binary exactly when one is no text. |
| `TextNormalization.NormalizedXmlChunks` | src/metadata/xml-stream.ts:28-47 | The yielded chunks concatenate to the newline-normalised text. |
| `RangeDeletion.DeleteRanges` | src/metadata/package-child-filter.ts:70-87 | For every cut into chunks the loop writes exactly the text outside the ranges. |
| `PackageChildFilter.CallbacksFindRanges` | src/metadata/package-child-filter.ts:12-63 | The callbacks accept a document exactly when its root and members are as expected, and then hold the ranges of the selected members. |
| `PackageChildFilter.MemberKeyExactly` | src/metadata/package-child-filter.ts:31-57 | A member is called by the first rule for its element, its own identity, which exactly one child must give, and the parent's name unless the rule ignores it. |
| `PackageChildFilter.RangesAreTheExcludedMembers` | src/metadata/package-child-filter.ts:32-61 | The ranges are sorted, disjoint and correspond one to one to the excluded members, widened only over a blank separator. |
| `PackageChildFilter.FilterPackageChildren` | src/metadata/package-child-filter.ts:9-89 | Both passes together: the output is the text without the excluded members, and the keys are returned in order. |
| `JobQueue.QueueRuns` | src/jobs/single-job-queue.ts:44-123 | In every run lanes and slots are bounded, ids are distinct, tasks start in order and once, and after an abort every running task is signalled. |
| `JobQueue.ReservationHasRoom` | src/jobs/single-job-queue.ts:23-97 | Enqueueing with a live reservation fails only for a duplicate id, never for capacity. |
| `JobAdmission.AdmissionExactly` | src/jobs/single-job-queue.ts:67-86 | A job is taken exactly if the queue accepts, a live reservation or free room is there and its id is not in use; every refusal has its exact condition. |
| `JobAdmission.ReservationIsUsedUp` | src/jobs/single-job-queue.ts:26-36 | Enqueueing uses up a live reservation, whatever becomes of the job, and leaves all others alone. |
| `JobAdmission.ReservationsExactly` | src/jobs/single-job-queue.ts:26-65 | A slot is reserved exactly if there is room, and is given back once. |
| `JobAdmission.EveryJobCanStart` | src/jobs/single-job-queue.ts:99-107 | From every state of the queue all jobs it has taken can be started, in the order of admission. |
| `JobQueue.DrainIsComplete` | src/jobs/single-job-queue.ts:99-107 | Draining leaves all lanes full or nothing waiting and starts the longest-waiting tasks. |
| `JobQueue.AbortReachesEveryLaterTask` | src/jobs/single-job-queue.ts:119-123 | After an abort every task that ever runs has its signal set. |
| `JobQueue.SingleJobQueue.EnqueueJob` | src/jobs/single-job-queue.ts:67-97 | Admission with or without reservation, with all its errors. |
| `JobQueue.SingleJobQueue.DrainLanes` | src/jobs/single-job-queue.ts:99-107 | The drain loop reaches the drained state. |
| `CacheLocks.MutualExclusion` | src/git/git-cache.ts:53-58 | Two acquires that hold the same key are the same one. |
| `CacheLocks.EvictedIsUnheld` | src/git/git-cache.ts:86-94 | While a key is evicted, every unfinished acquire of it is waiting for a promise that has not settled. |
| `CacheLocks.WantedHasTail` | src/git/git-cache.ts:84-92 | A key that is held, waited for or being evicted has an entry in `tails`, so no eviction of it starts. |
| `GitCache.StepKeeps` | src/git/git-cache.ts:48-116 | Every step between two awaits keeps the waiting lines, the active set, and recorded sizes that cover what is on the disk. |
| `GitCache.OneHolderPerKey` | src/git/git-cache.ts:48-105 | In every run at most one acquire holds a key. |
| `GitCache.EvictionDisturbsNobody` | src/git/git-cache.ts:86-95 | In every run, a directory being evicted is held by nobody and nobody who wants it can resume. |
| `GitCache.SomebodyCanMove` | src/git/git-cache.ts:53-77 | Whenever an acquire is unfinished, some acquire holds its key or may resume: the waiting lines never deadlock. |
| `GitCacheEviction.EvictionBeginsOverTotal` | src/git/git-cache.ts:78-85 | Candidates are looked for exactly if the reservation breaks the total, and are exactly the recorded directories nobody holds or wants. |
| `GitCacheEviction.FirstVictimExactly` | src/git/git-cache.ts:86-98 | The first victim is the first candidate that is still idle; without one the total decides. |
| `GitCacheEviction.DeletionStopsInTime` | src/git/git-cache.ts:93-98 | After a deletion another victim is chosen exactly if the total is still exceeded and an idle candidate is left; if the total holds the acquire goes on. |
| `GitCacheEviction.DeletionFreesItsOwn` | src/git/git-cache.ts:89-94 | A deletion removes exactly its own directory and size, unless it failed. |
| `GitCacheEviction.LeaseExactly` | src/git/git-cache.ts:99-104 | A lease is granted exactly if its directory could be prepared, and keeps what it held. |
| `GitCacheEviction.ReleaseRecordsExactly` | src/git/git-cache.ts:64-68 | A released directory stays exactly if its size can be read and is within the limit, and is recorded with it. |
| `GitCacheEviction.ReleaseEndsExactly` | src/git/git-cache.ts:67-77 | Otherwise it is removed, or recorded at the full limit if that fails; in every case its key is free again. |
| `GitCacheQuota.TotalHolds` | src/git/git-cache.ts:81-98 | From the first lease on, leases at the full limit plus everything else as recorded stay within the total limit, as long as failing removals fit. |
| `GitCacheQuota.StepKeepsTotal` | src/git/git-cache.ts:69-72 | From a total that holds, a step breaks it exactly when it is a failing removal whose key, counted in full, does not fit. |
| `GitCacheQuota.RemovedQuota` | src/git/git-cache.ts:69-76 | By how much the end of a removal, successful or not, changes the committed sum. |
| `GitCacheQuota.LeasesCountInFull` | src/git/git-cache.ts:80-82 | A lease is counted at the full limit per repository. |
| `GitCacheQuota.DiskWithinTotal` | src/git/git-cache.ts:61-68 | The directories as they really are, each counted up to the limit per repository, fit into the total too. |
| `GitCacheQuota.FailedRemovalOverflows` | src/git/git-cache.ts:69-72 | A run with one lease and one refused acquire that ends above the total limit. |
| `GitCacheStore.Total` | src/git/git-cache.ts:83-98 | The loop over the recorded sizes gives their sum in whatever order. |
| `GitCacheStore.Cache.Acquire` | src/git/git-cache.ts:48-58 | Joins the waiting line of the key, or is refused after close. |
| `GitCacheStore.Cache.Resume` | src/git/git-cache.ts:78-85 | Reserves the full allowance and either grants or looks for candidates; a cancelled acquire goes to its release. |
| `GitCacheStore.Cache.EvictNext` | src/git/git-cache.ts:86-98 | The eviction loop up to the next deletion or the final check. |
| `GitCacheStore.Cache.AfterDeletion` | src/git/git-cache.ts:93-98 | A finished deletion frees the key, then the loop stops, goes on or fails. |
| `GitCacheStore.Cache.Measured` | src/git/git-cache.ts:64-68 | The release records the measured size if it is within the limit. |
| `GitCacheStore.Cache.Removed` | src/git/git-cache.ts:69-76 | The release removes the directory or records it at the full limit, then unlocks. |
| `GitTree.RegisterPath` | src/git/git-project-validator.ts:49-60 | Registering the prefixes of a path succeeds exactly when no two names seen so far collide. |
| `GitTree.SelectedGitEntries` | src/git/git-project-validator.ts:42-66 | Accepts exactly safe, collision-free selections of regular files, and then gives the included entries. |
| `GitTree.SelectedExactly` | src/git/git-project-validator.ts:42-66 | The result holds exactly the listed entries strictly below the root, by the rest of their path, that are not excluded. |
| `GitTree.AcceptedNamesAreInjective` | src/git/git-project-validator.ts:50-60 | After acceptance equal canonical names are the same directory, or the very same place of the same path. |
| `GitTree.AcceptanceIgnoresOrder` | src/git/git-project-validator.ts:47-65 | Selected entries in another order are accepted or refused alike. |
| `GitTree.SelectionIgnoresOrder` | src/git/git-project-validator.ts:42-65 | Listing the tree in another order, the selection below the same root is accepted or refused alike. |
| `ApexFlattening.DestinationExactly` | src/git/git-materializer.ts:122-143 | A file stays where it is if it is ignored or no package directory fits, and otherwise goes directly below the `classes` directory the first fitting one leads to. |
| `ApexFlattening.FlatteningTwice` | src/git/git-materializer.ts:122-143 | Moving a path that was moved changes nothing, whatever the order of the package directories. |
| `ApexFlattening.ClassAndMetadataStayTogether` | src/git/git-materializer.ts:127-141 | Apex files of one directory, ignored alike, keep their names and get one common destination directory. |
| `ApexFlattening.FlattenPath` | src/git/git-materializer.ts:122-143 | The search for the deciding package directory gives the destination of the definition. |
| `ApexFlattening.FlattenedApexEntries` | src/git/git-materializer.ts:118-147 | Accepts exactly when every folded class name has one origin and the destinations pass the collision check, and then gives every entry with its destination. |
| `ApexFlattening.DestinationsAreDistinct` | src/git/git-materializer.ts:144-145 | No two files meet at a destination on any platform, and no destination is a directory of another. |
| `ApexFlattening.OneClassPerName` | src/git/git-materializer.ts:133-138 | Moved files with the same folded class name come from one directory, belong to one class and end in one directory. |
| `ApexFlattening.FlatteningAgain` | src/git/git-materializer.ts:118-147 | A flattened list is accepted again and nothing moves. |
| `PayloadDigest.StreamRoundTrip` | src/core/files.ts:94-104 | Parsing the stream fed to the v2 digest gives the list of entries back. |
| `PayloadDigest.StreamDecidesPayload` | src/core/files.ts:94-156 | Lists with the same stream are equal. |
| `PayloadDigest.FeedDigest` | src/core/files.ts:94-104 | The feeding loop produces that stream. |
| `PayloadDigest.OldStreamIsAmbiguous` | src/core/files.ts:77-88 | In the older framing two neighbouring files and one file that holds the separators give one stream. |
| `PayloadDigest.OldStreamDecidesText` | src/core/files.ts:77-88 | Lists of files without NUL bytes that have the same older stream are equal. |
| `PayloadDigest.OldStreamIsUnmistakableExactly` | src/core/files.ts:77-88 | With NUL-free paths, the older stream belongs to one list only, exactly if that list is empty or is one file with at most one NUL in its content. |
| `OrgIdentifier.NormalizeSalesforceOrgId` | src/salesforce/org-identifier.ts:9-27 | The nested loops give the normal form, errors included. |
| `OrgIdentifier.LongFormIsCaseSafe` | src/salesforce/org-identifier.ts:14-25 | 15-character ids whose long forms agree ignoring case are equal. |
| `OrgIdentifier.SuffixSaysUpper` | src/salesforce/org-identifier.ts:14-25 | Bit i of the place of a check character is set exactly if letter i of its segment is upper case. |
| `OrgIdentifier.NormalizingIsStable` | src/salesforce/org-identifier.ts:9-27 | Normalising keeps the first 15 characters and accepts an 18-character id exactly when its check characters are right. |
| `OrgIdentifier.NormalizingTwice` | src/salesforce/org-identifier.ts:9-27 | Normalising is idempotent. |

## Left out

- Database: SQLite, SQL text, migrations and JSON columns; a transaction or guarded UPDATE is one atomic step on typed rows, and columns no decision reads are not modelled.
- Tables beside jobs, attempts and approvals: audit events, access grants, users and roles, execution leases and admission counters; permission checks are booleans of a request.
- Artifact files on disk, `recordSelectedManifest`, `recordDeploymentResult`, `recordOrgIdentityMismatch` and the creation of dry runs without an Idempotency-Key.
- DeploymentRuns.StepKeeps: beginning a validation or a deployment together with a validation id, or a Quick Deploy without one, is not among the calls, because no caller does that; `DeploymentRuns.BeginKeepsExactly` says of every intent whether it keeps the invariant.
- Salesforce: start and report calls are answered by the environment, in any way; what the commands do is outside the model.
- Failing reads of service code after a successful submission, except in completion and reconciliation.
- SHA-256: an injective function of what is fed; long identity values stand for their digests in the same way. Tables of `sort` by locale are ordinary orders, since only the set of keys matters to verdicts.
- XML parsers and UTF-8 decoding: the model starts from element trees, event streams with increasing positions, and decoded text. Attribute lists are maps.
- The order of the change list, displayed previews of nodes with children, change limits, truncation and the coarse change list of large files: only verdicts and kinds of changes are modelled.
- Comparator.SizeDoesNotMatter: the file kind and the parsed tree are functions of the file, assumed not to depend on byte-order marks, line ends or prefix length, because detection and parsing are outside the model; the prefix does matter for a file without `.xml` suffix whose markup is preceded by more than 4096 blanks.
- `mapWithConcurrency`, text diffs, reports, web interface, command line and configuration.
- GitTree.SelectedGitEntries: Unicode normalisation, lower-casing, the segment rules and the excluded names are functions given to the model, because they are tables about single strings.
- ApexFlattening.FlattenedApexEntries: the final sort by output path and the sort of package directories are not modelled; the results hold for every order.
- GitCache.StepKeeps: times of directories are an arbitrary order of candidates, and the settling of a deletion is one step with the code after it, as the order of promise reactions makes it; opening the cache, its process lock and the end of close() are not modelled.
- QuickDeploy.IdentityComparisonIsPreorder: lower-casing of host names is ASCII only.
- Coalescing of equal requests inside one process and the admission limiter: the request key in the database decides already; `discoverGitProjects` and project configuration checks.
- Job queue: waiting for idle and the results of tasks; a task is its id and its ticket.
- Deletion of users, presets, setup checks, credentials and Git subprocesses.
