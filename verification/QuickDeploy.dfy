// Whether an approved deployment may reuse the validation of its dry run
// (src/deploy/quick-deploy-eligibility.ts, sameOrgIdentity of src/salesforce/org-identity.ts).
module QuickDeploy {
  import opened Options
  import opened DeploymentModel
  import opened DeploymentSteps

  // Lower case of the letters that occur in a Salesforce user name.
  function LowerChar(c: char): char
  {
    if 'A' <= c <= 'Z' then (c as int + 32) as char else c
  }

  function Lower(s: string): string
  {
    seq(|s|, i requires 0 <= i < |s| => LowerChar(s[i]))
  }

  predicate Unless<T(==)>(expected: Option<T>, actual: Option<T>)
  {
    expected.None? || expected == actual
  }

  // An attribute that was not recorded is not compared, so this is not symmetric.
  predicate SameOrgIdentity(expected: OrgIdentity, actual: OrgIdentity)
  {
    && expected.alias == actual.alias
    && Unless(expected.connectionId, actual.connectionId)
    && Unless(expected.connectionGeneration, actual.connectionGeneration)
    && Lower(expected.username) == Lower(actual.username)
    && expected.orgId == actual.orgId
    && Unless(expected.instanceUrlHash, actual.instanceUrlHash)
  }

  predicate SameTestPlan(left: TestPlan, right: TestPlan)
  {
    && left.level == right.level && left.selection == right.selection
    && |left.tests| == |right.tests| && forall i | 0 <= i < |left.tests| :: left.tests[i] == right.tests[i]
  }

  predicate ConfirmedCheckOnlySuccess(job: Job)
  {
    && job.dryRunResult.Some?
    && var r := job.dryRunResult.value;
    && r.checkOnly == Some(true) && r.success != Some(false)
    && (r.done == Some(true) || (r.status.Some? && SuccessStatus(r.status.value)))
  }

  datatype Eligibility = Eligibility(mode: ExecutionMode, validationId: Option<string>)

  // The reasons that make the recorded evidence unusable; the program lists all of them.
  predicate EvidenceBroken(dryRun: Job, deploy: Job)
  {
    || dryRun.status != ApprovalPending
    || !dryRun.prepared || dryRun.payloadDigestVersion != 2
    || deploy.payloadDigestVersion != 2 || deploy.payloadChecksum != dryRun.payloadChecksum
    || dryRun.targetIdentity.None? || deploy.targetIdentity.None?
    || !SameOrgIdentity(dryRun.targetIdentity.value, deploy.targetIdentity.value)
    || dryRun.testPlan.None? || deploy.testPlan.None? || !SameTestPlan(dryRun.testPlan.value, deploy.testPlan.value)
    || !ConfirmedCheckOnlySuccess(dryRun)
  }

  function Evaluate(dryRun: Job, deploy: Job, validation: Option<Attempt>): Eligibility
  {
    if EvidenceBroken(dryRun, deploy) then Eligibility(RevalidationRequired, None)
    else if validation.None? || validation.value.operation != Validate then Eligibility(UseStandardDeploy, None)
    else
      var v := validation.value;
      if v.state == Submitting || v.state == Submitted then Eligibility(ModeReconcileRequired, None)
      else if v.state != Terminal || v.remoteStatus != RemoteSucceeded then Eligibility(RevalidationRequired, None)
      else if v.digestVersion != 2 || v.payloadChecksum != dryRun.payloadChecksum
        || !SameOrgIdentity(v.targetIdentity, dryRun.targetIdentity.value) then Eligibility(RevalidationRequired, None)
      else if v.validationId.None? then Eligibility(UseStandardDeploy, None)
      else if dryRun.testPlan.value.level == "NoTestRun" then Eligibility(UseStandardDeploy, None)
      else Eligibility(UseQuickDeploy, v.validationId)
  }

  // ---- What the answers mean, said of the columns ----

  // Salesforce reported a check-only run that did not fail.
  predicate CheckOnlySuccess(result: Option<Report>)
  {
    && result.Some? && result.value.checkOnly == Some(true) && result.value.success != Some(false)
    && (result.value.done == Some(true) || result.value.status in {Some("Succeeded"), Some("SucceededPartial")})
  }

  // A prepared, approved dry run of the same payload, org and tests, seen to succeed.
  predicate EvidenceComplete(dryRun: Job, deploy: Job)
  {
    && dryRun.status == ApprovalPending && dryRun.prepared
    && dryRun.payloadDigestVersion == 2 && deploy.payloadDigestVersion == 2
    && dryRun.payloadChecksum == deploy.payloadChecksum
    && dryRun.targetIdentity.Some? && deploy.targetIdentity.Some?
    && SameOrgIdentity(dryRun.targetIdentity.value, deploy.targetIdentity.value)
    && dryRun.testPlan.Some? && dryRun.testPlan == deploy.testPlan
    && CheckOnlySuccess(dryRun.dryRunResult)
  }

  predicate Tracked(validation: Option<Attempt>) { validation.Some? && validation.value.operation == Validate }

  predicate InDoubt(validation: Option<Attempt>)
  {
    Tracked(validation) && validation.value.state in {Submitting, Submitted}
  }

  // The validation ended in success, of the payload and in the org of the dry run.
  predicate Validated(dryRun: Job, validation: Option<Attempt>)
  {
    && Tracked(validation) && validation.value.state == Terminal && validation.value.remoteStatus == RemoteSucceeded
    && validation.value.digestVersion == 2 && validation.value.payloadChecksum == dryRun.payloadChecksum
    && dryRun.targetIdentity.Some? && SameOrgIdentity(validation.value.targetIdentity, dryRun.targetIdentity.value)
  }

  predicate Reusable(dryRun: Job, validation: Option<Attempt>)
  {
    && Validated(dryRun, validation) && validation.value.validationId.Some?
    && dryRun.testPlan.Some? && dryRun.testPlan.value.level != "NoTestRun"
  }

  lemma SamePlansAreEqual(left: TestPlan, right: TestPlan)
    ensures SameTestPlan(left, right) <==> left == right
  {
    if SameTestPlan(left, right) { assert left.tests == right.tests; }
  }

  lemma CompleteMeansUnbroken(dryRun: Job, deploy: Job)
    ensures EvidenceBroken(dryRun, deploy) <==> !EvidenceComplete(dryRun, deploy)
  {
    if dryRun.testPlan.Some? && deploy.testPlan.Some? {
      SamePlansAreEqual(dryRun.testPlan.value, deploy.testPlan.value);
    }
  }

  // The four answers. On incomplete evidence the dry run must be repeated, whatever was
  // tracked; on complete evidence the tracked validation decides: none means a standard
  // deployment, one in doubt must be reconciled, one that failed or is of something else means
  // repeating the dry run, and a good one is reused unless its id is unknown or it ran no tests.
  lemma ModesExactly(dryRun: Job, deploy: Job, validation: Option<Attempt>)
    ensures var mode := Evaluate(dryRun, deploy, validation).mode; var complete := EvidenceComplete(dryRun, deploy);
      && (mode == RevalidationRequired <==>
            !complete || (Tracked(validation) && !InDoubt(validation) && !Validated(dryRun, validation)))
      && (mode == ModeReconcileRequired <==> complete && InDoubt(validation))
      && (mode == UseStandardDeploy <==>
            complete && (!Tracked(validation) || (Validated(dryRun, validation) && !Reusable(dryRun, validation))))
      && (mode == UseQuickDeploy <==> complete && Reusable(dryRun, validation))
  {
    CompleteMeansUnbroken(dryRun, deploy);
  }

  // Quick Deploy, and nothing else, reuses a validation: the tracked one, by its own id.
  lemma QuickDeployExactly(dryRun: Job, deploy: Job, validation: Option<Attempt>)
    ensures Evaluate(dryRun, deploy, validation).validationId.Some?
      <==> EvidenceComplete(dryRun, deploy) && Reusable(dryRun, validation)
    ensures Evaluate(dryRun, deploy, validation).mode == UseQuickDeploy
      <==> Evaluate(dryRun, deploy, validation).validationId.Some?
    ensures Evaluate(dryRun, deploy, validation).mode == UseQuickDeploy
      ==> SuccessfulValidation(validation.value) && validation.value.payloadChecksum == deploy.payloadChecksum
          && Evaluate(dryRun, deploy, validation).validationId == OwnId(validation.value)
  {
    ModesExactly(dryRun, deploy, validation);
  }

  // Comparing identities is a preorder. An unrecorded attribute makes it one-way: it is
  // symmetric exactly where the recorded attributes are the same ones.
  lemma IdentityComparisonIsPreorder(a: OrgIdentity, b: OrgIdentity, c: OrgIdentity)
    ensures SameOrgIdentity(a, a)
    ensures SameOrgIdentity(a, b) && SameOrgIdentity(b, c) ==> SameOrgIdentity(a, c)
    ensures SameOrgIdentity(a, b) ==> (SameOrgIdentity(b, a) <==> SameRecorded(a, b))
  {
  }

  // What is compared where everything was recorded: all of it, the user name up to the case
  // of its letters.
  lemma RecordedIdentitiesAreCompared(a: OrgIdentity, b: OrgIdentity)
    requires a.connectionId.Some? && a.connectionGeneration.Some? && a.instanceUrlHash.Some?
    ensures SameOrgIdentity(a, b) <==> a == b.(username := a.username) && SameLetters(a.username, b.username)
  {
    LowerComparesLetters(a.username, b.username);
  }

  predicate SameLetter(c: char, d: char)
  {
    c == d || ('A' <= c <= 'Z' && d as int == c as int + 32) || ('A' <= d <= 'Z' && c as int == d as int + 32)
  }

  predicate SameLetters(s: string, t: string)
  {
    |s| == |t| && forall i | 0 <= i < |s| :: SameLetter(s[i], t[i])
  }

  lemma LowerComparesLetters(s: string, t: string)
    ensures Lower(s) == Lower(t) <==> SameLetters(s, t)
  {
    assert |Lower(s)| == |s| && |Lower(t)| == |t|;
    assert forall c, d :: LowerChar(c) == LowerChar(d) <==> SameLetter(c, d);
    if Lower(s) == Lower(t) {
      forall i | 0 <= i < |s| ensures SameLetter(s[i], t[i]) { assert Lower(s)[i] == Lower(t)[i]; }
    }
  }

  predicate SameRecorded(a: OrgIdentity, b: OrgIdentity)
  {
    && (a.connectionId.None? <==> b.connectionId.None?)
    && (a.connectionGeneration.None? <==> b.connectionGeneration.None?)
    && (a.instanceUrlHash.None? <==> b.instanceUrlHash.None?)
  }
}
