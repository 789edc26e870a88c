/** The part of the workflow state the commit, CI and repair protocol works on (graph/state.py). */
module WorkflowState {
  import opened Prelude

  datatype Terminal = Completed | CiFailed | InfrastructureFailed | ImplementationFailed | UserCancelled | OtherEnd

  /** Commits by role; an empty string counts as no commit, as it does in the source. */
  datatype CommitRecord = CommitRecord(repair: bool, sha: Option<string>)

  datatype Commits = Commits(
    repair: Option<string>,
    developer: Option<string>,
    head: Option<string>,
    history: seq<CommitRecord>,
    repairPhase: bool)

  datatype Decision = Accepted | AcceptedWithWarnings | Rejected

  datatype RunStatus = PassedRun | FailedRun | OtherStatus

  datatype Eligibility = Eligibility(
    required: bool,
    eligible: bool,
    commitMatch: bool,
    sourceCommit: Option<string>,
    targetCommit: Option<string>,
    runId: Option<string>,
    status: Option<RunStatus>,
    decision: Option<Decision>)

  datatype CiState = CiUnknown | CiPassed | CiFailedState | CiUnavailable | CiInfrastructureFailed

  datatype Ci = Ci(
    state: CiState,
    runId: Option<string>,
    status: Option<RunStatus>,
    decision: Option<Decision>,
    validated: Option<string>,
    eligible: bool,
    eligibility: Option<Eligibility>,
    failure: Option<string>,
    gates: string)

  datatype RepairState = NotRequired | Pending | Running | Repaired | NotRepairable | Exhausted | RepairFailed

  /** One entry of the repair lineage. */
  datatype Link = Link(
    attempt: int,
    sourceRun: Option<string>,
    sourceCommit: Option<string>,
    repairCommit: Option<string>,
    resultRun: Option<string>,
    decision: Option<Decision>)

  datatype CiRepair = CiRepair(
    state: RepairState,
    attempts: int,
    sourceRun: Option<string>,
    sourceCommit: Option<string>,
    targetCommit: Option<string>,
    lineage: seq<Link>)

  datatype Operation = CreateProject | PrepareEnvironment | RunTests | ApplyFix | GitCommit | GitMerge | PlanningRisk

  datatype ApprovalStatus = NoApproval | Waiting | Approved | RejectedApproval

  /** The pending-approval fields; the tool and its arguments travel with the operation. */
  datatype PendingApproval = PendingApproval(operation: Option<Operation>, toolMatches: bool, status: ApprovalStatus)

  datatype Stage = CiStage | OtherStage

  datatype Failure = Failure(stage: Option<Stage>, kind: Option<string>, testSummary: Option<string>)

  datatype Tests = Tests(executed: bool, passed: bool, finalSummary: Option<string>, resultPassed: bool, resultSummary: Option<string>)

  datatype Workflow = Workflow(
    projectKnown: bool,
    commits: Commits,
    ci: Ci,
    repair: CiRepair,
    pending: PendingApproval,
    failure: Failure,
    tests: Tests,
    supervisorChoseRepair: bool,
    terminal: Option<Terminal>)

  /** The commit everything is checked against: the repair commit, else the developer's, else the head. */
  function Candidate(c: Commits): Option<string> {
    Truthy(Or(c.repair, Or(c.developer, c.head)))
  }

  /** Promotion may only be allowed for the exact commit that was validated. */
  predicate Exact(w: Workflow) {
    w.ci.eligible ==> w.ci.validated.Some? && w.ci.validated == Candidate(w.commits)
  }
}
