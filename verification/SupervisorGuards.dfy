/** Which stage follows: the supervisor's guards and its decision (graph/supervisor/guards.py, graph/supervisor/service.py). */
module SupervisorGuards {
  import opened Prelude
  import opened Text
  import opened WorkflowState

  datatype Target =
    | Planning
    | InspectWorkspace
    | Implementation
    | TestingRepair
    | GitWorkflow
    | CiPipeline
    | GitPromotion
    | Finalize

  // ---------------------------------------------------------------- settings

  /** The graph compares the text of CI_PROMOTION_REQUIRED with one word, and needs a CI service. */
  predicate GraphRequiresCi(ciService: bool, setting: Option<string>) {
    ciService && Lower(setting.GetOr("true")) == "true"
  }

  /** The service trims it and knows four words. */
  predicate ServiceRequiresCi(setting: Option<string>) {
    Lower(Strip(setting.GetOr("true"))) in {"1", "true", "yes", "on"}
  }

  /** Where the graph demands CI, so does the service. */
  lemma GraphImpliesService(ciService: bool, setting: Option<string>)
    requires GraphRequiresCi(ciService, setting)
    ensures ServiceRequiresCi(setting)
    ensures Strip(setting.GetOr("true")) == setting.GetOr("true")
  {
    var text := setting.GetOr("true");
    assert |text| == 4;
    assert Lower(text)[0] == LowerChar(text[0]) == 't';
    assert Lower(text)[3] == LowerChar(text[3]) == 'e';
    assert Strip(text) == text;
  }

  /** They read a setting alike if and only if it is none of the service's other words and no "true" with blanks around it. */
  lemma SettingsAgreeIff(setting: Option<string>)
    ensures
      var text := setting.GetOr("true");
      GraphRequiresCi(true, setting) == ServiceRequiresCi(setting) <==>
        Lower(Strip(text)) !in {"1", "yes", "on"} && (Lower(Strip(text)) == "true" ==> Strip(text) == text)
  {
    if GraphRequiresCi(true, setting) {
      GraphImpliesService(true, setting);
    }
  }

  /** Set to 1, the service refuses commits that the graph never has checked. */
  lemma ServiceAloneRequires()
    ensures ServiceRequiresCi(Some("1")) && !GraphRequiresCi(true, Some("1"))
  {
    assert Strip("1") == "1";
    assert Lower("1") == "1";
  }

  /** What the graph writes into the state at every visit of the supervisor. */
  datatype Integration = Integration(git: bool, ciRequired: bool, promotionRequired: bool, autoPrepare: bool)

  // ---------------------------------------------------------------- the guards

  datatype GitStage = NotInitialized | WorkspacePrepared | Ready | AwaitingApproval | Committed | NoChanges | Unavailable | OtherGit

  datatype PromotionStage = PromotionOpen | Completed | AlreadyPromoted | PromotionRejected | Conflicts | PromotionUnavailable

  /** What the other stages have reached, as the guards read it: a stage's result first, its flat copy otherwise. */
  datatype Progress = Progress(
    review: bool,
    inspected: bool,
    planningStarted: bool,
    planningValid: bool,
    planningAttempts: int,
    maxPlanning: int,
    projectAvailable: bool,
    environmentPrepared: bool,
    framework: bool,
    implementationAttempts: int,
    maxImplementation: int,
    testsExecuted: bool,
    testsPassed: bool,
    infrastructureFailed: bool,
    retryLimit: bool,
    repairAttempts: int,
    filesRepaired: bool,
    git: GitProgress)

  datatype GitProgress = GitProgress(stage: GitStage, branch: bool, promotion: PromotionStage)

  predicate ApprovalBlocks(w: Workflow) {
    w.pending.status.Waiting?
  }

  predicate WorkspaceReady(i: Integration, p: Progress) {
    !i.git || (!p.git.stage.NotInitialized? && !p.git.stage.OtherGit? && p.git.branch)
  }

  /** The last commit of the workflow is made, or there is nothing to commit; repaired files still ask for one. */
  predicate CommitComplete(i: Integration, w: Workflow, p: Progress) {
    !i.git
    || ((p.git.stage.Committed? || p.git.stage.NoChanges? || p.git.stage.Unavailable?)
        && !(Truthy(w.commits.developer).Some? && p.filesRepaired && Truthy(w.commits.repair).None?))
  }

  predicate PromotionComplete(i: Integration, p: Progress) {
    !i.promotionRequired || p.git.promotion.Completed? || p.git.promotion.AlreadyPromoted?
  }

  predicate PromotionEnded(p: Progress) {
    !p.git.promotion.PromotionOpen?
  }

  predicate Validated(w: Workflow) {
    && Candidate(w.commits).Some? && w.ci.validated == Candidate(w.commits) && w.ci.eligible
    && (w.ci.decision == Some(Accepted) || w.ci.decision == Some(AcceptedWithWarnings))
  }

  predicate CiSettled(i: Integration, w: Workflow) {
    !(i.git && i.ciRequired) || Validated(w)
  }

  function AfterPassingTests(i: Integration, w: Workflow, p: Progress): seq<Target> {
    if i.git && !CommitComplete(i, w, p) then [GitWorkflow]
    else if i.git && !CiSettled(i, w) then [CiPipeline]
    else if i.autoPrepare && p.git.stage.Committed? && !PromotionEnded(p) then [GitPromotion]
    else if WorkspaceReady(i, p) && PromotionComplete(i, p) then [Finalize]
    else if i.git then [GitWorkflow]
    else [Finalize]
  }

  function BeforePassingTests(i: Integration, p: Progress): seq<Target> {
    if p.infrastructureFailed then [Finalize]
    else if p.review && !p.inspected then [InspectWorkspace]
    else if !p.review && !p.planningStarted then [Planning]
    else if !p.review && !p.planningValid then (if p.planningAttempts < p.maxPlanning then [Planning] else [Finalize])
    else if !p.inspected then [InspectWorkspace]
    else if i.git && p.projectAvailable && !WorkspaceReady(i, p) then [GitWorkflow]
    else if p.environmentPrepared && !p.testsExecuted then [TestingRepair]
    else if p.testsExecuted then (if !p.retryLimit && p.repairAttempts < 2 then [TestingRepair] else [Finalize])
    else if p.environmentPrepared && p.framework && p.projectAvailable then [TestingRepair]
    else if p.implementationAttempts < p.maxImplementation then [Implementation]
    else [Finalize]
  }

  /** determine_allowed_handoffs */
  function AllowedHandoffs(i: Integration, w: Workflow, p: Progress): seq<Target> {
    if w.terminal.Some? then [Finalize]
    else if ApprovalBlocks(w) then []
    else if p.testsPassed then AfterPassingTests(i, w, p)
    else BeforePassingTests(i, p)
  }

  /** CI is offered exactly for a finished commit that passed its tests, where the graph demands CI and has no verdict in favour of it. */
  lemma CiOfferedIff(i: Integration, w: Workflow, p: Progress)
    ensures (CiPipeline in AllowedHandoffs(i, w, p)) == (
      && w.terminal.None? && !ApprovalBlocks(w) && p.testsPassed
      && i.git && i.ciRequired && CommitComplete(i, w, p) && !Validated(w))
  {
  }

  /** With Git on, passing tests lead to promotion or to the end only with the commit made and, where CI is demanded, validated. */
  lemma PassedEndsValidated(i: Integration, w: Workflow, p: Progress)
    requires i.git && p.testsPassed && w.terminal.None? && !ApprovalBlocks(w)
    ensures GitPromotion in AllowedHandoffs(i, w, p) || Finalize in AllowedHandoffs(i, w, p) ==>
      CommitComplete(i, w, p) && (i.ciRequired ==> Validated(w))
    ensures Finalize in AllowedHandoffs(i, w, p) ==> i.promotionRequired ==> p.git.promotion.Completed? || p.git.promotion.AlreadyPromoted?
  {
  }

  /** A required promotion that was turned down sends the graph back to Git, where it may commit again on top of a validated commit. */
  lemma CommitsAfterRejection(i: Integration, w: Workflow, p: Progress)
    requires i.git && i.promotionRequired && p.testsPassed && w.terminal.None? && !ApprovalBlocks(w)
    requires CommitComplete(i, w, p) && CiSettled(i, w) && p.git.promotion.PromotionRejected?
    ensures AllowedHandoffs(i, w, p) == [GitWorkflow]
  {
  }

  // ---------------------------------------------------------------- the decision

  predicate NotFinalize(t: Target) {
    !t.Finalize?
  }

  /** resolve_mandatory_handoff */
  function ResolveMandatory(w: Workflow, allowed: seq<Target>): Option<Target> {
    if ApprovalBlocks(w) then None
    else if w.terminal.Some? then Some(Finalize)
    else
      var open := Filter(NotFinalize, allowed);
      if |open| == 1 then Some(open[0])
      else if allowed == [Finalize] then Some(Finalize)
      else None
  }

  function SafeFallback(allowed: seq<Target>): Target {
    var open := Filter(NotFinalize, allowed);
    if open == [] then Finalize else open[0]
  }

  /** What the model answers: nothing usable, or a target with a reason and a confidence that may or may not be acceptable. */
  datatype ModelAnswer = NoAnswer | Answer(target: Option<Target>, reasonGiven: bool, confidenceValid: bool)

  /** validate_supervisor_decision finds no error. */
  predicate Acceptable(answer: ModelAnswer, allowed: seq<Target>, w: Workflow, p: Progress) {
    && answer.Answer? && answer.target.Some? && answer.target.value in allowed && answer.reasonGiven && answer.confidenceValid
    && (w.terminal.Some? ==> answer.target.value.Finalize?)
    && (answer.target.value.TestingRepair? ==> p.environmentPrepared)
    && (answer.target.value.Implementation? && !p.review ==> p.planningValid)
    && (answer.target.value.Planning? ==> !p.review)
    && !ApprovalBlocks(w)
  }

  /** Development switch that asks the model although the policy has decided. */
  predicate ForcesModel(force: bool, allowed: seq<Target>, mandatory: Option<Target>) {
    force && |allowed| >= 2 && mandatory != Some(TestingRepair) && mandatory != Some(Finalize)
  }

  /** supervisor_node: the target decided on, None when a waiting approval makes it leave the state alone. */
  function Decide(i: Integration, w: Workflow, p: Progress, force: bool, attemptsLeft: bool, answer: ModelAnswer, looping: bool): Option<Target> {
    if ApprovalBlocks(w) then None
    else if looping then Some(Finalize)
    else
      var allowed := AllowedHandoffs(i, w, p);
      var mandatory := ResolveMandatory(w, allowed);
      if mandatory.Some? && (!ForcesModel(force, allowed, mandatory) || !attemptsLeft) then mandatory
      else if Acceptable(answer, allowed, w, p) then answer.target
      else Some(SafeFallback(allowed))
  }

  lemma OneTarget(i: Integration, w: Workflow, p: Progress)
    ensures |AllowedHandoffs(i, w, p)| == if ApprovalBlocks(w) && w.terminal.None? then 0 else 1
  {
  }

  /**
   * The guards leave no choice: outside a waiting approval exactly one target is allowed and it is taken,
   * whatever the model would answer and whatever the development switch says; only a loop ends the request instead.
   */
  lemma SupervisorDetermined(i: Integration, w: Workflow, p: Progress, force: bool, attemptsLeft: bool, answer: ModelAnswer, looping: bool)
    requires !ApprovalBlocks(w)
    ensures |AllowedHandoffs(i, w, p)| == 1
    ensures Decide(i, w, p, force, attemptsLeft, answer, looping) == Some(if looping then Finalize else AllowedHandoffs(i, w, p)[0])
  {
    OneTarget(i, w, p);
    var allowed := AllowedHandoffs(i, w, p);
    assert allowed == [allowed[0]];
    assert Filter(NotFinalize, allowed) == if NotFinalize(allowed[0]) then [allowed[0]] else [];
  }
}
