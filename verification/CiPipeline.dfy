/** One CI step of the workflow: run_ci_pipeline (graph/builder.py). */
module CiPipeline {
  import opened Prelude
  import opened WorkflowState
  import opened CiEligibility
  import opened CiService

  datatype Settings = Settings(repairEnabled: bool, maxAttempts: int)

  /** What the CI service answers: before the run, the run (None when it raised), its repairability, after it, and the type of failure or error. */
  datatype Answers = Answers(
    available: bool,
    existing: Eligibility,
    run: Option<Run>,
    repairability: Repairability,
    after: Eligibility,
    failure: Option<string>)

  /** Python's s[-n:]. */
  function Last<T>(s: seq<T>, n: int): (r: seq<T>)
    ensures 1 <= n ==> |r| == if |s| < n then |s| else n
    ensures n == 0 ==> r == s
  {
    if n >= 1 then (if |s| < n then s else s[|s| - n..])
    else if -n > |s| then []
    else s[-n..]
  }

  lemma LastKeepsEnd<T>(s: seq<T>, x: T, n: int)
    requires n >= 1
    ensures Last(s + [x], n) != [] && Last(s + [x], n)[|Last(s + [x], n)| - 1] == x
  {
  }

  function Extended(settings: Settings, r: CiRepair, link: Link): seq<Link> {
    Last(r.lineage + [link], settings.maxAttempts)
  }

  /** The repair has a source run, so a pass means it worked. */
  function RepairedState(r: CiRepair): RepairState {
    if Truthy(r.sourceRun).Some? then Repaired else r.state
  }

  function AlreadyEligible(settings: Settings, w: Workflow, e: Eligibility): Workflow {
    var r := w.repair;
    var repairing := Truthy(r.sourceRun).Some?;
    var link := Link(r.attempts, r.sourceRun, r.sourceCommit, e.sourceCommit, e.runId, e.decision);
    w.(ci := w.ci.(state := CiPassed, runId := e.runId, status := e.status, decision := e.decision,
                   validated := e.sourceCommit, eligible := true, eligibility := Some(e), gates := ""),
       repair := r.(state := RepairedState(r),
                    targetCommit := if repairing then e.sourceCommit else r.targetCommit,
                    lineage := if repairing && (r.state.Pending? || r.state.Running?) then Extended(settings, r, link) else r.lineage),
       terminal := None)
  }

  function Rejection(w: Workflow, run: Run, a: Answers): Workflow {
    w.(ci := Ci(CiFailedState, run.id, Some(run.status), run.decision, run.validated, false, Some(a.after), a.failure, run.gates),
       repair := w.repair.(sourceRun := run.id, sourceCommit := run.validated))
  }

  function CiFailure(w: Workflow, kind: Option<string>): Failure {
    w.failure.(stage := Some(CiStage), kind := kind)
  }

  function AfterRejection(settings: Settings, w: Workflow, run: Run, a: Answers): Workflow {
    var failed := Rejection(w, run, a);
    if a.repairability.infrastructure then
      failed.(repair := failed.repair.(state := NotRepairable), terminal := Some(InfrastructureFailed),
              failure := CiFailure(w, Or(a.failure, Some("ci_infrastructure_failure"))))
    else if !settings.repairEnabled || !a.repairability.repairable then
      failed.(repair := failed.repair.(state := NotRepairable), terminal := Some(CiFailed),
              failure := CiFailure(w, Or(a.failure, Some("ci_repair_not_applicable"))))
    else if w.repair.attempts >= settings.maxAttempts then
      var link := Link(w.repair.attempts, w.repair.sourceRun, w.repair.sourceCommit, run.validated, run.id, run.decision);
      failed.(repair := failed.repair.(state := Exhausted, lineage := Extended(settings, w.repair, link)),
              terminal := Some(CiFailed), failure := CiFailure(w, Some("ci_repair_exhausted")))
    else
      failed.(repair := failed.repair.(state := Pending, attempts := w.repair.attempts + 1),
              terminal := None,
              tests := w.tests.(executed := true, passed := false, resultPassed := false, resultSummary := a.repairability.summary),
              failure := CiFailure(w, Or(a.failure, Or(a.repairability.failureKind, Some("ci_promotion_blocked")))))
  }

  function AfterAcceptance(w: Workflow, run: Run, a: Answers): Workflow {
    w.(ci := Ci(if a.after.eligible then CiPassed else CiFailedState, run.id, Some(run.status), run.decision, run.validated,
                a.after.eligible, Some(a.after), a.failure, run.gates),
       repair := w.repair.(state := RepairedState(w.repair)),
       terminal := if a.after.eligible then None else Some(CiFailed))
  }

  function CiStep(settings: Settings, w: Workflow, a: Answers): Workflow {
    if !a.available then
      w.(ci := w.ci.(state := CiUnavailable), terminal := Some(InfrastructureFailed),
         failure := CiFailure(w, Some("ci_service_unavailable")))
    else if !w.projectKnown || Candidate(w.commits).None? then
      w.(ci := w.ci.(state := CiFailedState), terminal := Some(CiFailed), failure := CiFailure(w, Some("ci_commit_missing")))
    else if a.existing.eligible then AlreadyEligible(settings, w, a.existing)
    else if a.run.None? then
      w.(ci := w.ci.(state := CiInfrastructureFailed), terminal := Some(InfrastructureFailed), failure := CiFailure(w, a.failure))
    else if a.run.value.decision == Some(Rejected) then AfterRejection(settings, w, a.run.value, a)
    else AfterAcceptance(w, a.run.value, a)
  }

  lemma StepKeepsCommits(settings: Settings, w: Workflow, a: Answers)
    ensures CiStep(settings, w, a).commits == w.commits
  {
  }

  // ---------------------------------------------------------------- every step ends in one of three ways

  predicate PassedAndEligible(w: Workflow) {
    w.terminal.None? && w.ci.state.CiPassed? && w.ci.eligible
  }

  predicate Ended(w: Workflow) {
    w.terminal.Some?
  }

  predicate RepairPending(settings: Settings, before: Workflow, after: Workflow) {
    && after.terminal.None? && after.repair.state.Pending? && after.ci.state.CiFailedState? && !after.ci.eligible
    && after.repair.attempts == before.repair.attempts + 1 <= settings.maxAttempts
    && after.tests.executed && !after.tests.passed
  }

  /** Exactly one of: passed and eligible, ended, or a repair pending with one more attempt, still within the limit. */
  lemma StepTrichotomy(settings: Settings, w: Workflow, a: Answers)
    ensures
      var after := CiStep(settings, w, a);
      || (PassedAndEligible(after) && !Ended(after) && !RepairPending(settings, w, after))
      || (Ended(after) && !PassedAndEligible(after) && !RepairPending(settings, w, after))
      || (RepairPending(settings, w, after) && !PassedAndEligible(after) && !Ended(after))
  {
  }

  /** Only the pending outcome counts an attempt, so the attempts left never grow. */
  lemma StepAttempts(settings: Settings, w: Workflow, a: Answers)
    ensures
      var after := CiStep(settings, w, a);
      if RepairPending(settings, w, after) && after.repair.attempts != w.repair.attempts
      then settings.maxAttempts - after.repair.attempts < settings.maxAttempts - w.repair.attempts
      else after.repair.attempts == w.repair.attempts
  {
  }

  /** The service ran the pipeline and rejected the commit in a way a repair could address. */
  predicate RepairableRejection(settings: Settings, w: Workflow, a: Answers) {
    && a.available && w.projectKnown && Candidate(w.commits).Some? && !a.existing.eligible
    && a.run.Some? && a.run.value.decision == Some(Rejected)
    && !a.repairability.infrastructure && settings.repairEnabled && a.repairability.repairable
  }

  lemma RejectionCounts(settings: Settings, w: Workflow, a: Answers)
    requires RepairableRejection(settings, w, a)
    ensures
      var after := CiStep(settings, w, a);
      if w.repair.attempts < settings.maxAttempts then RepairPending(settings, w, after) else after.terminal == Some(CiFailed)
  {
  }

  // ---------------------------------------------------------------- runs

  /** The workflow goes on after a step, and the nodes in between leave the counter and the lineage alone. */
  predicate CarriedOver(after: Workflow, next: Workflow) {
    after.terminal.None? && next.repair.attempts == after.repair.attempts && next.repair.lineage == after.repair.lineage
  }

  /** A run of the workflow as the CI step sees it. */
  ghost predicate CiRun(settings: Settings, before: seq<Workflow>, answers: seq<Answers>) {
    && |before| == |answers|
    && forall i :: 0 <= i < |before| - 1 ==> CarriedOver(CiStep(settings, before[i], answers[i]), before[i + 1])
  }

  function Rejections(settings: Settings, before: seq<Workflow>, answers: seq<Answers>): nat
    requires |before| == |answers|
  {
    if before == [] then 0
    else
      (if RepairableRejection(settings, before[0], answers[0]) then 1 else 0)
      + Rejections(settings, before[1..], answers[1..])
  }

  function AttemptsLeft(settings: Settings, w: Workflow): nat {
    if w.repair.attempts < settings.maxAttempts then settings.maxAttempts - w.repair.attempts else 0
  }

  /** A run sees at most one repairable rejection more than it has attempts left; then it has ended as ci_failed. */
  lemma {:induction false} RejectionsBounded(settings: Settings, before: seq<Workflow>, answers: seq<Answers>)
    requires CiRun(settings, before, answers) && before != []
    ensures Rejections(settings, before, answers) <= AttemptsLeft(settings, before[0]) + 1
    decreases |before|
  {
    var w, a := before[0], answers[0];
    StepAttempts(settings, w, a);
    if |before| == 1 {
      assert Rejections(settings, before[1..], answers[1..]) == 0;
    } else {
      var rest, answersLeft := before[1..], answers[1..];
      forall i | 0 <= i < |rest| - 1 ensures CarriedOver(CiStep(settings, rest[i], answersLeft[i]), rest[i + 1]) {
        assert rest[i] == before[i + 1] && answersLeft[i] == answers[i + 1] && rest[i + 1] == before[i + 2];
      }
      RejectionsBounded(settings, rest, answersLeft);
      assert rest[0] == before[1];
      assert CarriedOver(CiStep(settings, before[0], answers[0]), before[0 + 1]);
      if RepairableRejection(settings, w, a) {
        RejectionCounts(settings, w, a);
      }
    }
  }

  // ---------------------------------------------------------------- lineage

  lemma StepLineageBounded(settings: Settings, w: Workflow, a: Answers)
    requires settings.maxAttempts >= 1 && |w.repair.lineage| <= settings.maxAttempts
    ensures |CiStep(settings, w, a).repair.lineage| <= settings.maxAttempts
  {
  }

  /** With a limit of at least one, the lineage never holds more entries than the limit, however long the run. */
  lemma {:induction false} LineageBounded(settings: Settings, before: seq<Workflow>, answers: seq<Answers>, i: nat)
    requires CiRun(settings, before, answers) && i < |before|
    requires settings.maxAttempts >= 1 && |before[0].repair.lineage| <= settings.maxAttempts
    ensures |before[i].repair.lineage| <= settings.maxAttempts
    ensures |CiStep(settings, before[i], answers[i]).repair.lineage| <= settings.maxAttempts
  {
    if i > 0 {
      LineageBounded(settings, before, answers, i - 1);
      assert CarriedOver(CiStep(settings, before[i - 1], answers[i - 1]), before[i - 1 + 1]);
    }
    StepLineageBounded(settings, before[i], answers[i]);
  }

  /** A limit of zero turns the slice into the whole list: the rejection that ends the request adds an entry to any lineage. */
  lemma LineageGrowsAtZero(settings: Settings, w: Workflow, a: Answers)
    requires settings.maxAttempts == 0 && RepairableRejection(settings, w, a) && w.repair.attempts >= 0
    ensures |CiStep(settings, w, a).repair.lineage| == |w.repair.lineage| + 1
    ensures CiStep(settings, w, a).terminal == Some(CiFailed)
  {
  }

  /** A new lineage entry ties the commit and run that were rejected to the commit, run and decision that followed. */
  lemma LineageTiesCommits(settings: Settings, w: Workflow, a: Answers)
    requires settings.maxAttempts >= 1 && CiStep(settings, w, a).repair.lineage != w.repair.lineage
    ensures
      var after := CiStep(settings, w, a);
      && after.repair.lineage != []
      && after.repair.lineage[|after.repair.lineage| - 1]
         == Link(w.repair.attempts, w.repair.sourceRun, w.repair.sourceCommit, after.ci.validated, after.ci.runId, after.ci.decision)
  {
    var after := CiStep(settings, w, a);
    var link := Link(w.repair.attempts, w.repair.sourceRun, w.repair.sourceCommit, after.ci.validated, after.ci.runId, after.ci.decision);
    assert after.repair.lineage == Extended(settings, w.repair, link);
    LastKeepsEnd(w.repair.lineage, link, settings.maxAttempts);
  }

  // ---------------------------------------------------------------- repeating a step

  /** At an eligible commit the step settles: asked again with the same answer it changes nothing. */
  lemma EligibleStepIdempotent(settings: Settings, w: Workflow, a: Answers)
    requires a.available && w.projectKnown && Candidate(w.commits).Some? && a.existing.eligible
    ensures CiStep(settings, CiStep(settings, w, a), a) == CiStep(settings, w, a)
  {
  }

  // ---------------------------------------------------------------- exact commits

  /** What the service answers about the candidate, given its store at the two lookups and how the pipeline ends. */
  function Served(policy: Policy, before: seq<Run>, after: seq<Run>, w: Workflow, outcome: Outcome): Answers {
    var commit := Candidate(w.commits);
    Answers(
      true,
      PromotionEligibility(before, commit, policy),
      PipelineRun(commit, NoRepository, outcome),
      if outcome.Raised? then Repairability(false, false, None, None) else outcome.repairability,
      PromotionEligibility(after, commit, policy),
      if outcome.Raised? then Some(outcome.error) else outcome.failure)
  }

  /** A favourable verdict under a required policy names the candidate; a run made for the candidate validates it. */
  lemma RequiredStepExact(settings: Settings, policy: Policy, before: seq<Run>, after: seq<Run>, w: Workflow, outcome: Outcome)
    requires policy.required && Exact(w) && StoredByService(before)
    ensures Exact(CiStep(settings, w, Served(policy, before, after, w, outcome)))
  {
    var commit := Candidate(w.commits);
    if PromotionEligibility(before, commit, policy).eligible {
      VerdictNamesCommit(before, commit, policy);
    }
    if PipelineRun(commit, NoRepository, outcome).Some? {
      assert PipelineRun(commit, NoRepository, outcome).value.validated == commit;
    }
  }

  lemma FreeStepInexact(settings: Settings, policy: Policy, before: seq<Run>, after: seq<Run>, w: Workflow, outcome: Outcome)
    requires !policy.required && Exact(w)
    ensures Exact(CiStep(settings, w, Served(policy, before, after, w, outcome)))
      <==> !w.projectKnown || Candidate(w.commits).None?
  {
  }

  /** Whatever the service answers, a step keeps promotion exact if and only if the policy demands CI, or the step asks nothing. */
  lemma StepExactIff(settings: Settings, policy: Policy, before: seq<Run>, after: seq<Run>, w: Workflow, outcome: Outcome)
    requires Exact(w) && StoredByService(before)
    ensures Exact(CiStep(settings, w, Served(policy, before, after, w, outcome)))
      <==> policy.required || !w.projectKnown || Candidate(w.commits).None?
    ensures CiStep(settings, w, Served(policy, before, after, w, outcome)).commits == w.commits
  {
    StepKeepsCommits(settings, w, Served(policy, before, after, w, outcome));
    if policy.required {
      RequiredStepExact(settings, policy, before, after, w, outcome);
    } else {
      FreeStepInexact(settings, policy, before, after, w, outcome);
    }
  }

  /** A workflow with one commit that nothing has checked. */
  function Unchecked(commit: string): Workflow {
    Workflow(
      true,
      Commits(None, Some(commit), Some(commit), [], false),
      Ci(CiUnknown, None, None, None, None, false, None, None, ""),
      CiRepair(NotRequired, 0, None, None, None, []),
      PendingApproval(None, false, NoApproval),
      Failure(None, None, None),
      Tests(true, true, None, true, None),
      false,
      None)
  }

  /** Where CI is not required, a commit no pipeline ever ran for is eligible at once, and no commit is recorded as validated. */
  lemma NotRequiredInexact(settings: Settings, commit: string, allowWarnings: bool, outcome: Outcome)
    requires IsSha(commit)
    ensures
      var w := Unchecked(commit);
      var stepped := CiStep(settings, w, Served(Policy(false, allowWarnings), [], [], w, outcome));
      Exact(w) && stepped.ci.eligible && stepped.ci.validated.None? && !Exact(stepped)
  {
  }
}
