/** Which CI answers lead to which outcome of a step, on the fields of the workflow (run_ci_pipeline in graph/builder.py). */
module CiOutcomes {
  import opened Prelude
  import opened WorkflowState
  import opened CiEligibility
  import opened CiPipeline

  /** x is the first of the three commits that is not empty. */
  predicate FirstCommit(c: Commits, x: string) {
    && x != ""
    && (c.repair == Some(x)
        || (c.repair in {None, Some("")} && c.developer == Some(x))
        || (c.repair in {None, Some("")} && c.developer in {None, Some("")} && c.head == Some(x)))
  }

  /** The candidate is the repair commit, without one the developer's, without one the head, and an empty string is none. */
  lemma CandidateIs(c: Commits, x: string)
    ensures Candidate(c) == Some(x) <==> FirstCommit(c, x)
    ensures Candidate(c) != Some("")
  {
  }

  lemma NoCandidateIff(c: Commits)
    ensures Candidate(c).None? <==> c.repair in {None, Some("")} && c.developer in {None, Some("")} && c.head in {None, Some("")}
  {
  }

  /** There is a service to ask and a commit to ask it about. */
  predicate Asked(w: Workflow, a: Answers) {
    a.available && w.projectKnown && Candidate(w.commits).Some?
  }

  predicate Ran(w: Workflow, a: Answers) {
    Asked(w, a) && !a.existing.eligible && a.run.Some?
  }

  predicate RunRejected(w: Workflow, a: Answers) {
    Ran(w, a) && a.run.value.decision == Some(Rejected)
  }

  predicate WithinAttempts(settings: Settings, w: Workflow) {
    w.repair.attempts < settings.maxAttempts
  }

  // ---------------------------------------------------------------- rejections

  /** A repair is left pending exactly after a rejection that is classified as repairable, while repairs are enabled and attempts are left. */
  lemma RepairPendingIff(settings: Settings, w: Workflow, a: Answers)
    ensures RepairPending(settings, w, CiStep(settings, w, a)) <==>
      && RunRejected(w, a) && !a.repairability.infrastructure
      && settings.repairEnabled && a.repairability.repairable && WithinAttempts(settings, w)
  {
  }

  /** How every other rejection ends the run, and that none of them counts an attempt. */
  lemma RejectionEndings(settings: Settings, w: Workflow, a: Answers)
    requires RunRejected(w, a)
    ensures
      var after := CiStep(settings, w, a);
      && (a.repairability.infrastructure ==> after.terminal == Some(InfrastructureFailed) && after.repair.state == NotRepairable)
      && (!a.repairability.infrastructure && (!settings.repairEnabled || !a.repairability.repairable) ==>
            after.terminal == Some(CiFailed) && after.repair.state == NotRepairable)
      && (!a.repairability.infrastructure && settings.repairEnabled && a.repairability.repairable && !WithinAttempts(settings, w) ==>
            after.terminal == Some(CiFailed) && after.repair.state == Exhausted)
      && (after.terminal.Some? ==> after.repair.attempts == w.repair.attempts && after.tests == w.tests)
  {
  }

  /** Every rejection takes eligibility away and becomes what a repair goes back to. */
  lemma RejectionRecorded(settings: Settings, w: Workflow, a: Answers)
    requires RunRejected(w, a)
    ensures
      var after := CiStep(settings, w, a);
      && after.repair.sourceRun == a.run.value.id && after.repair.sourceCommit == a.run.value.validated
      && after.ci.state == CiFailedState && !after.ci.eligible
  {
  }

  /** A pending repair is told to read the tests as failed, with what the classification says about them. */
  lemma PendingTests(settings: Settings, w: Workflow, a: Answers)
    requires RepairPending(settings, w, CiStep(settings, w, a))
    ensures
      var after := CiStep(settings, w, a);
      && after.tests.executed && !after.tests.passed && !after.tests.resultPassed
      && after.tests.resultSummary == a.repairability.summary && after.tests.finalSummary == w.tests.finalSummary
  {
  }

  // ---------------------------------------------------------------- how a step ends

  /** Which terminal status a step leaves; none exactly when it passed or a repair is pending. */
  lemma TerminalIff(settings: Settings, w: Workflow, a: Answers)
    ensures
      var after := CiStep(settings, w, a);
      && (after.terminal.None? <==>
            || (Asked(w, a) && a.existing.eligible)
            || (Ran(w, a) && !RunRejected(w, a) && a.after.eligible)
            || RepairPending(settings, w, after))
      && (after.terminal == Some(InfrastructureFailed) <==>
            || !a.available || (Asked(w, a) && !a.existing.eligible && a.run.None?)
            || (RunRejected(w, a) && a.repairability.infrastructure))
      && (after.terminal.Some? ==> after.terminal.value in {InfrastructureFailed, CiFailed})
  {
  }

  /** A verdict, or a run that was accepted, decides eligibility; a rejection takes it away, and a step that could not run leaves it. */
  lemma EligibleIff(settings: Settings, w: Workflow, a: Answers)
    ensures CiStep(settings, w, a).ci.eligible <==>
      if !Asked(w, a) || (!a.existing.eligible && a.run.None?) then w.ci.eligible
      else a.existing.eligible || (!RunRejected(w, a) && a.after.eligible)
  {
  }

  /** The commit, run and decision recorded with it are those of the verdict. */
  lemma VerdictRecorded(settings: Settings, w: Workflow, a: Answers)
    requires Asked(w, a) && a.existing.eligible
    ensures
      var ci := CiStep(settings, w, a).ci;
      && ci.state == CiPassed && ci.validated == a.existing.sourceCommit && ci.runId == a.existing.runId
      && ci.decision == a.existing.decision && ci.status == a.existing.status && ci.eligibility == Some(a.existing)
      && ci.gates == "" && ci.failure == w.ci.failure
  {
  }

  /** Or those of the run. */
  lemma RunRecorded(settings: Settings, w: Workflow, a: Answers)
    requires Ran(w, a)
    ensures
      var ci, run := CiStep(settings, w, a).ci, a.run.value;
      && ci.validated == run.validated && ci.runId == run.id && ci.decision == run.decision && ci.status == Some(run.status)
      && ci.eligibility == Some(a.after) && ci.gates == run.gates && ci.failure == a.failure
      && ci.state == if !RunRejected(w, a) && a.after.eligible then CiPassed else CiFailedState
  {
    if RunRejected(w, a) {
      RejectedCi(settings, w, a.run.value, a);
    }
  }

  lemma RejectedCi(settings: Settings, w: Workflow, run: Run, a: Answers)
    ensures AfterRejection(settings, w, run, a).ci == Rejection(w, run, a).ci
  {
  }

  /** A step that could not run says so, and changes nothing else of CI, repair or tests. */
  lemma CouldNotRun(settings: Settings, w: Workflow, a: Answers)
    ensures
      var after := CiStep(settings, w, a);
      && (!a.available ==> after.ci.state == CiUnavailable)
      && (a.available && !Asked(w, a) ==> after.ci.state == CiFailedState && after.terminal == Some(CiFailed))
      && (Asked(w, a) && !a.existing.eligible && a.run.None? ==> after.ci.state == CiInfrastructureFailed)
      && (!Asked(w, a) || (!a.existing.eligible && a.run.None?) ==>
            after.ci == w.ci.(state := after.ci.state) && after.repair == w.repair && after.tests == w.tests)
  {
  }

  predicate Said(x: Option<string>) {
    x.Some? && x.value != ""
  }

  /** The reason given for a failure: that of the run where it has one. */
  lemma ReasonGiven(settings: Settings, w: Workflow, a: Answers)
    ensures
      var after := CiStep(settings, w, a);
      var given := RunRejected(w, a) && Said(a.failure);
      && (!a.available ==> after.failure.kind == Some("ci_service_unavailable"))
      && (a.available && !Asked(w, a) ==> after.failure.kind == Some("ci_commit_missing"))
      && (Asked(w, a) && !a.existing.eligible && a.run.None? ==> after.failure.kind == a.failure)
      && (after.repair.state == Exhausted && RunRejected(w, a) ==> after.failure.kind == Some("ci_repair_exhausted"))
      && (given && after.repair.state != Exhausted ==> after.failure.kind == a.failure)
      && (RunRejected(w, a) && !given && a.repairability.infrastructure ==> after.failure.kind == Some("ci_infrastructure_failure"))
      && (RunRejected(w, a) && !given && !a.repairability.infrastructure && after.repair.state == NotRepairable ==>
            after.failure.kind == Some("ci_repair_not_applicable"))
      && (RepairPending(settings, w, after) && !given ==>
            after.failure.kind == if Said(a.repairability.failureKind) then a.repairability.failureKind else Some("ci_promotion_blocked"))
      && (!a.available || !Asked(w, a) || RunRejected(w, a) ==> after.failure.stage == Some(CiStage))
      && after.failure.testSummary == w.failure.testSummary
  {
  }

  /** A step that passed leaves the failure as it was, and one that was accepted but is not eligible too. */
  lemma ReasonKept(settings: Settings, w: Workflow, a: Answers)
    requires Asked(w, a) && (a.existing.eligible || (a.run.Some? && !RunRejected(w, a)))
    ensures CiStep(settings, w, a).failure == w.failure && CiStep(settings, w, a).tests == w.tests
  {
  }

  // ---------------------------------------------------------------- repair and lineage

  predicate Repairing(w: Workflow) {
    w.repair.sourceRun.Some? && w.repair.sourceRun.value != ""
  }

  /** A pass marks the repair it followed, and no other, as having worked. */
  lemma PassEndsRepair(settings: Settings, w: Workflow, a: Answers)
    requires Asked(w, a) && (a.existing.eligible || (a.run.Some? && !RunRejected(w, a)))
    ensures
      var before, after := w.repair, CiStep(settings, w, a).repair;
      && after.state == (if Repairing(w) then Repaired else before.state)
      && after.sourceRun == before.sourceRun && after.sourceCommit == before.sourceCommit && after.attempts == before.attempts
      && after.targetCommit == if Repairing(w) && a.existing.eligible then a.existing.sourceCommit else before.targetCommit
  {
  }

  /** The lineage gains an entry when an existing verdict ends a repair under way, and when the attempts are used up. */
  lemma LineageGrowsIff(settings: Settings, w: Workflow, a: Answers)
    requires settings.maxAttempts > |w.repair.lineage|
    ensures
      var after := CiStep(settings, w, a).repair;
      && (|after.lineage| == |w.repair.lineage| + 1 <==>
            || (Asked(w, a) && a.existing.eligible && Repairing(w) && w.repair.state in {Pending, Running})
            || (RunRejected(w, a) && !a.repairability.infrastructure && settings.repairEnabled && a.repairability.repairable
                && !WithinAttempts(settings, w)))
      && w.repair.lineage <= after.lineage && |after.lineage| <= |w.repair.lineage| + 1
  {
  }

  /** No step touches what is not CI's. */
  lemma LeftAlone(settings: Settings, w: Workflow, a: Answers)
    ensures
      var after := CiStep(settings, w, a);
      && after.commits == w.commits && after.pending == w.pending && after.projectKnown == w.projectKnown
      && after.supervisorChoseRepair == w.supervisorChoseRepair
  {
  }
}
