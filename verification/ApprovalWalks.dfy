/** That the approval graph delivers: what each decision leads to, and walks on which every sensitive operation is carried out. */
module ApprovalWalks {
  import opened Prelude
  import opened WorkflowState
  import opened ApprovalGraph

  // ---------------------------------------------------------------- what a decision leads to

  /** The approval node an operation waits at. */
  function WaitsAt(op: Operation): Node {
    match op
    case PlanningRisk => RiskApproval
    case GitCommit => GitApproval
    case GitMerge => PromotionApproval
    case CreateProject => ImplementationApproval
    case PrepareEnvironment => ImplementationApproval
    case RunTests => TestingApproval
    case ApplyFix => TestingApproval
  }

  /** The node a grant leads to: the one that performs the operation, or that accepts the risk. */
  function Granting(op: Operation): Node {
    match op
    case PlanningRisk => AcceptRisk
    case GitCommit => ExecuteGitCommit
    case GitMerge => ExecuteGitPromotion
    case CreateProject => ExecuteCreateProject
    case PrepareEnvironment => ExecutePrepareEnvironment
    case RunTests => ExecuteTests
    case ApplyFix => ExecuteFix
  }

  /** The node a rejection leads to. */
  function Refusing(op: Operation): Node {
    match op
    case PlanningRisk => RejectRisk
    case GitCommit => RejectGitCommit
    case GitMerge => RejectGitPromotion
    case CreateProject => ImplementationExit
    case PrepareEnvironment => ImplementationExit
    case RunTests => TestingExit
    case ApplyFix => TestingExit
  }

  /** The graph waits for a decision on r. */
  function WaitingFor(r: Request, cancelled: bool): Point {
    Point(WaitsAt(r.operation), Approval(Some(r), Waiting, cancelled))
  }

  /** In every run the graph waits at an approval node in this form only. */
  lemma WaitsInForm(p: Point)
    requires AtNode(p) && IsApproval(p.node)
    ensures p.state.request.Some? && p == WaitingFor(p.state.request.value, p.state.cancelled)
  {
  }

  /** A yes leads to the node of the operation and nowhere else, with the request still pending. */
  lemma GrantLeads(r: Request, q: Point)
    requires Completes(WaitingFor(r, false), q) && q.state.status == Approved
    ensures q == Point(Granting(r.operation), Approval(Some(r), Approved, false))
  {
    assert q.state == Approval(Some(r), Approved, false);
    match r.operation
    case PlanningRisk =>
    case GitCommit =>
    case GitMerge =>
    case CreateProject =>
    case PrepareEnvironment =>
    case RunTests =>
    case ApplyFix =>
  }

  lemma ParentGrantPossible(r: Request, cancelled: bool)
    requires r.operation in {PlanningRisk, GitCommit, GitMerge}
    ensures Completes(WaitingFor(r, cancelled), Point(Granting(r.operation), Approval(Some(r), Approved, cancelled)))
  {
  }

  lemma ImplementationGrantPossible(r: Request)
    requires r.operation in {CreateProject, PrepareEnvironment}
    ensures Completes(WaitingFor(r, false), Point(Granting(r.operation), Approval(Some(r), Approved, false)))
  {
  }

  lemma TestingGrantPossible(r: Request)
    requires r.operation in {RunTests, ApplyFix}
    ensures Completes(WaitingFor(r, false), Point(Granting(r.operation), Approval(Some(r), Approved, false)))
  {
  }

  /** And it can always be given, while the request is not cancelled. */
  lemma GrantPossible(r: Request)
    ensures Completes(WaitingFor(r, false), Point(Granting(r.operation), Approval(Some(r), Approved, false)))
  {
    match r.operation
    case CreateProject => ImplementationGrantPossible(r);
    case PrepareEnvironment => ImplementationGrantPossible(r);
    case RunTests => TestingGrantPossible(r);
    case ApplyFix => TestingGrantPossible(r);
    case _ => ParentGrantPossible(r, false);
  }

  /** Any other answer leads to the operation's rejection and marks the request as cancelled. */
  lemma RefusalLeads(r: Request, cancelled: bool, q: Point)
    requires Completes(WaitingFor(r, cancelled), q) && q.state.status != Approved
    ensures q.node == Refusing(r.operation) && q.state.status == RejectedApproval && q.state.cancelled
    ensures !IsExecute(q.node)
  {
    match r.operation
    case PlanningRisk =>
    case GitCommit =>
    case GitMerge =>
    case CreateProject =>
    case PrepareEnvironment =>
    case RunTests =>
    case ApplyFix =>
  }

  lemma RefusalPossible(r: Request, cancelled: bool)
    ensures Completes(WaitingFor(r, cancelled), Point(Refusing(r.operation), Approval(None, RejectedApproval, true)))
  {
    match r.operation
    case PlanningRisk =>
    case GitCommit =>
    case GitMerge =>
    case CreateProject =>
    case PrepareEnvironment =>
    case RunTests =>
    case ApplyFix =>
  }

  /** Where the graph may go on once an operation was carried out, or the risk accepted. */
  function After(op: Operation): set<Node> {
    match op
    case PlanningRisk => {PlanningJudge}
    case GitCommit => {Supervisor}
    case GitMerge => {Supervisor}
    case CreateProject => {DetectTestFramework, ImplementationExit}
    case PrepareEnvironment => {ImplementationExit}
    case RunTests => {ReadFailingTest, TestingExit}
    case ApplyFix => {PrepareQaKnowledge, TestingExit}
  }

  function Allowed(r: Request): Approval {
    Approval(Some(r), Approved, false)
  }

  /** A granted operation is carried out and leaves no request behind; an accepted risk alone may be left waiting. */
  lemma ExecutionGoesOn(r: Request, q: Point)
    ensures Completes(Point(Granting(r.operation), Allowed(r)), q) <==>
      && q.node in After(r.operation)
      && ((q.state.request.None? && q.state.status == NoApproval)
          || (r.operation == PlanningRisk && q.state == Allowed(r).(status := Waiting)))
  {
    match r.operation
    case PlanningRisk =>
    case GitCommit =>
    case GitMerge =>
    case CreateProject =>
    case PrepareEnvironment =>
    case RunTests =>
    case ApplyFix =>
  }

  /** A subgraph does not carry out what is granted once the request is cancelled: it leaves. */
  lemma CancelledGrantLeaves(r: Request, q: Point)
    requires r.operation !in {PlanningRisk, GitCommit, GitMerge}
    requires Completes(WaitingFor(r, true), q)
    ensures q.node == Refusing(r.operation)
  {
    match r.operation
    case CreateProject =>
    case PrepareEnvironment =>
    case RunTests =>
    case ApplyFix =>
  }

  // ---------------------------------------------------------------- the edges, read from their targets

  /** Granted in a request that goes on. */
  predicate CarriesOut(t: Approval, op: Operation) {
    t.status == Approved && !t.cancelled && t.request.Some? && t.request.value.operation == op
  }

  predicate Leaves(t: Approval) {
    t.status == RejectedApproval || t.cancelled
  }

  /** The ways into a node of the parent graph. */
  predicate IntoParent(n: Node, t: Approval, m: Node) {
    match m
    case Supervisor =>
      || n.DetectIntent? || n.LoopProbe? || n.HybridEvaluation? || n.InspectWorkspace? || n.CiPipeline?
      || n.ImplementationExit? || n.TestingExit?
      || (n.ExecuteGitCommit? || n.ExecuteGitPromotion? || n.RejectGitPromotion?)
      || (n.RiskPolicy? && !WaitsFor(t, PlanningRisk))
      || (n.GitWorkflow? && !WaitsFor(t, GitCommit)) || (n.GitPromotion? && !WaitsFor(t, GitMerge))
    case PreparePlannerKnowledge => n.Planning?
    case RiskPolicy => n.Planning? || n.PreparePlannerKnowledge?
    case RiskApproval => n.RiskPolicy? && WaitsFor(t, PlanningRisk)
    case AcceptRisk => n.RiskApproval? && t.status == Approved
    case RejectRisk => n.RiskApproval? && t.status != Approved
    case PlanningJudge => n.AcceptRisk? || (n.RiskPolicy? && !WaitsFor(t, PlanningRisk))
    case HybridEvaluation => n.PlanningJudge?
    case GitApproval => n.GitWorkflow? && WaitsFor(t, GitCommit)
    case ExecuteGitCommit => n.GitApproval? && t.status == Approved
    case RejectGitCommit => n.GitApproval? && t.status != Approved
    case PromotionApproval => n.GitPromotion? && WaitsFor(t, GitMerge)
    case ExecuteGitPromotion => n.PromotionApproval? && t.status == Approved
    case RejectGitPromotion => n.PromotionApproval? && t.status != Approved
    case FinalizeNode => n.Supervisor? || n.RejectRisk?
    case Evaluations => n.FinalizeNode?
    case End => n.Evaluations? || n.RejectGitCommit?
    case DetectIntent => false
    case _ => n.Supervisor?
  }

  predicate OfImplementation(m: Node) {
    || m.EntryFailure? || m.PrepareDeveloperKnowledge? || m.PrepareCreateProject? || m.NormalizeDependencies?
    || m.ValidateImplementation? || m.RefineImplementation?
    || m.ImplementationApproval? || m.ExecuteCreateProject? || m.DetectTestFramework? || m.FrameworkFailure?
    || m.PrepareEnvironmentRequest?
    || (m.ExecutePrepareEnvironment? || m.ImplementationExit?)
  }

  /** The ways into a node of the implementation subgraph behind its entry. */
  predicate IntoImplementation(n: Node, t: Approval, m: Node) {
    match m
    case EntryFailure => n.ImplementationEntry?
    case PrepareDeveloperKnowledge => n.ImplementationEntry?
    case PrepareCreateProject => n.PrepareDeveloperKnowledge?
    case NormalizeDependencies => (n.PrepareCreateProject? || n.ValidateImplementation? || n.RefineImplementation?)
    case ValidateImplementation => n.NormalizeDependencies?
    case RefineImplementation => n.ValidateImplementation?
    case ImplementationApproval => n.PrepareEnvironmentRequest? || (n.ValidateImplementation? && WaitsFor(t, CreateProject))
    case ExecuteCreateProject => n.ImplementationApproval? && CarriesOut(t, CreateProject)
    case DetectTestFramework => n.ImplementationEntry? || n.ExecuteCreateProject?
    case FrameworkFailure => n.DetectTestFramework?
    case PrepareEnvironmentRequest => n.DetectTestFramework?
    case ExecutePrepareEnvironment => n.ImplementationApproval? && CarriesOut(t, PrepareEnvironment)
    case ImplementationExit =>
      || (n.EntryFailure? || n.ValidateImplementation? || n.ExecuteCreateProject? || n.FrameworkFailure? || n.ExecutePrepareEnvironment?)
      || (n.ImplementationApproval? && Leaves(t))
    case _ => false
  }

  predicate OfTesting(m: Node) {
    || m.PrepareQaKnowledge? || m.PrepareRepairKnowledge? || m.PrepareTestRequest? || m.TestingApproval?
    || m.ExecuteTests? || m.ReadFailingTest?
    || (m.ReadRelatedSource? || m.PrepareFix? || m.ExecuteFix? || m.TestingExit?)
  }

  /** The ways into a node of the testing subgraph behind its entry. */
  predicate IntoTesting(n: Node, t: Approval, m: Node) {
    match m
    case PrepareQaKnowledge => n.TestingEntry? || n.ExecuteFix?
    case PrepareRepairKnowledge => n.TestingEntry? || n.ReadRelatedSource?
    case PrepareTestRequest => n.PrepareQaKnowledge?
    case TestingApproval => n.PrepareTestRequest? || (n.PrepareFix? && WaitsFor(t, ApplyFix))
    case ExecuteTests => n.TestingApproval? && CarriesOut(t, RunTests)
    case ReadFailingTest => n.TestingEntry? || n.ExecuteTests?
    case ReadRelatedSource => (n.TestingEntry? || n.ReadFailingTest? || n.ReadRelatedSource?)
    case PrepareFix => n.PrepareRepairKnowledge?
    case ExecuteFix => n.TestingApproval? && CarriesOut(t, ApplyFix)
    case TestingExit =>
      || (n.ExecuteTests? || n.ReadFailingTest? || n.ReadRelatedSource? || n.ExecuteFix?)
      || (n.PrepareFix? && !WaitsFor(t, ApplyFix)) || (n.TestingApproval? && Leaves(t))
    case _ => false
  }

  lemma ParentStays(n: Node, t: Approval, m: Node)
    requires ParentRoute(n, t, m)
    ensures !OfImplementation(m) && !OfTesting(m)
  {
  }

  lemma ParentTargets(n: Node, t: Approval, m: Node)
    requires ParentRoute(n, t, m)
    ensures IntoParent(n, t, m)
  {
  }

  lemma ImplementationTargets(n: Node, t: Approval, m: Node)
    requires ImplementationRoute(n, t, m)
    ensures if OfImplementation(m) then IntoImplementation(n, t, m) else m.Supervisor? && n.ImplementationExit?
  {
  }

  lemma TestingStays(n: Node, t: Approval, m: Node)
    requires TestingRoute(n, t, m)
    ensures OfTesting(m) || (m.Supervisor? && n.TestingExit?)
  {
  }

  lemma TestingTargets(n: Node, t: Approval, m: Node)
    requires TestingRoute(n, t, m)
    requires m.PrepareQaKnowledge? || m.PrepareRepairKnowledge? || m.PrepareTestRequest? || m.TestingApproval? || m.PrepareFix?
    ensures IntoTesting(n, t, m)
  {
  }

  lemma TestedTargets(n: Node, t: Approval, m: Node)
    requires TestingRoute(n, t, m) && (m.ExecuteTests? || m.ReadFailingTest? || m.ReadRelatedSource? || m.ExecuteFix? || m.TestingExit?)
    ensures IntoTesting(n, t, m)
  {
  }

  lemma ParentSources(n: Node, t: Approval, m: Node)
    requires !OfImplementation(m) && !OfTesting(m) && IntoParent(n, t, m)
    ensures Route(n, t, m)
  {
  }

  lemma ImplementationSources(n: Node, t: Approval, m: Node)
    requires IntoImplementation(n, t, m)
    ensures ImplementationRoute(n, t, m)
  {
  }

  lemma TestingSources(n: Node, t: Approval, m: Node)
    requires IntoTesting(n, t, m)
    ensures TestingRoute(n, t, m)
  {
  }

  /** The ways into a node, by the graph it belongs to. */
  predicate Into(n: Node, t: Approval, m: Node) {
    if OfImplementation(m) then IntoImplementation(n, t, m) else if OfTesting(m) then IntoTesting(n, t, m) else IntoParent(n, t, m)
  }

  lemma ParentLeadsInto(n: Node, t: Approval, m: Node)
    requires ParentRoute(n, t, m)
    ensures Into(n, t, m)
  {
    ParentStays(n, t, m);
    ParentTargets(n, t, m);
  }

  lemma TestingLeadsInto(n: Node, t: Approval, m: Node)
    requires TestingRoute(n, t, m)
    ensures Into(n, t, m)
  {
    TestingStays(n, t, m);
    if m.ExecuteTests? || m.ReadFailingTest? || m.ReadRelatedSource? || m.ExecuteFix? || m.TestingExit? {
      TestedTargets(n, t, m);
    } else if !m.Supervisor? {
      TestingTargets(n, t, m);
    }
  }

  lemma RouteLeadsInto(n: Node, t: Approval, m: Node)
    requires Route(n, t, m)
    ensures Into(n, t, m)
  {
    if ParentRoute(n, t, m) {
      ParentLeadsInto(n, t, m);
    } else if ImplementationRoute(n, t, m) {
      ImplementationTargets(n, t, m);
    } else {
      TestingLeadsInto(n, t, m);
    }
  }

  lemma IntoIsRoute(n: Node, t: Approval, m: Node)
    requires Into(n, t, m)
    ensures Route(n, t, m)
  {
    if OfImplementation(m) {
      ImplementationSources(n, t, m);
    } else if OfTesting(m) {
      TestingSources(n, t, m);
    } else {
      ParentSources(n, t, m);
    }
  }

  /** The edges of the whole graph: into each node exactly from where its subgraph leads there. */
  lemma EdgesIff(n: Node, t: Approval, m: Node)
    ensures Route(n, t, m) <==> Into(n, t, m)
  {
    if Route(n, t, m) {
      RouteLeadsInto(n, t, m);
    }
    if Into(n, t, m) {
      IntoIsRoute(n, t, m);
    }
  }

  /** Where a fork leads from each of the four nodes it may start at, and that of the approval it drops a pending merge only. */
  lemma ForksIff(p: Point, q: Point)
    ensures Forks(p, q) <==>
      && (match p.node
          case Supervisor => q.node == Supervisor || q.node == RiskPolicy
          case PrepareTestRequest => q.node == Supervisor || q.node == TestingEntry
          case PrepareFix => q.node in {Supervisor, PrepareRepairKnowledge, ReadRelatedSource, TestingExit}
          case ReadFailingTest => q.node in {Supervisor, TestingExit, ReadFailingTest}
          case _ => false)
      && q.state.cancelled == p.state.cancelled
      && (if p.state.request.Some? && p.state.request.value.operation == GitMerge
          then q.state.request.None? && q.state.status == NoApproval
          else q.state.request == p.state.request && q.state.status == p.state.status)
  {
  }

  /** The service can take a run back to any earlier point that may be replayed, and fork it there. */
  lemma ReturnPossible(past: seq<Point>, k: nat, q: Point)
    requires past != [] && k < |past| && ReplayAllowed(past[k])
    ensures Step(past, past[k], ByReturn(k))
    ensures Forks(past[k], q) ==> Step(past, q, ByReturn(k))
  {
  }

  /** What may be replayed: nodes without a sensitive effect behind them, and a test run that waits for approval. */
  lemma ReplayableIff(p: Point)
    requires AtNode(p)
    ensures ReplayAllowed(p) <==>
      || p.node in {Supervisor, LoopProbe, PreparePlannerKnowledge, FinalizeNode}
      || p.node in {ImplementationEntry, PrepareDeveloperKnowledge}
      || p.node in {TestingEntry, PrepareQaKnowledge, PrepareRepairKnowledge, PrepareTestRequest, ReadFailingTest, ReadRelatedSource, PrepareFix}
      || (p.node == TestingApproval && WaitsFor(p.state, RunTests))
  {
  }

  // ---------------------------------------------------------------- walks

  ghost predicate Walk(points: seq<Point>) {
    points != [] && forall i :: 0 <= i < |points| - 1 ==> Completes(points[i], points[i + 1])
  }

  const IDLE := Approval(None, NoApproval, false)

  /** The supervisor can have a commit asked for, */
  lemma CommitAskedWalk(r: Request)
    requires r.operation == GitCommit
    ensures Walk([Point(Supervisor, IDLE), Point(GitWorkflow, IDLE), WaitingFor(r, false)])
  {
  }

  /** and a merge; */
  lemma MergeAskedWalk(r: Request)
    requires r.operation == GitMerge
    ensures Walk([Point(Supervisor, IDLE), Point(GitPromotion, IDLE), WaitingFor(r, false)])
  {
  }

  /** a plan at risk, which otherwise goes on without a question; */
  lemma RiskAskedWalk(r: Request)
    requires r.operation == PlanningRisk
    ensures Walk([Point(DetectIntent, IDLE), Point(Supervisor, IDLE), Point(Planning, IDLE), Point(RiskPolicy, IDLE), WaitingFor(r, false)])
    ensures Walk([Point(RiskPolicy, IDLE), Point(PlanningJudge, IDLE), Point(HybridEvaluation, IDLE), Point(Supervisor, IDLE)])
  {
  }

  /** the implementation its project, which it has prepared before, */
  lemma ProjectPreparedWalk()
    ensures Walk([
      Point(Supervisor, IDLE), Point(ImplementationEntry, IDLE), Point(PrepareDeveloperKnowledge, IDLE), Point(PrepareCreateProject, IDLE)])
  {
  }

  lemma ProjectNormalizedWalk()
    ensures Walk([Point(PrepareCreateProject, IDLE), Point(NormalizeDependencies, IDLE), Point(ValidateImplementation, IDLE)])
  {
  }

  lemma ProjectAskedWalk(r: Request)
    requires r.operation == CreateProject
    ensures Walk([Point(ValidateImplementation, IDLE), WaitingFor(r, false)])
  {
  }

  /** and after that its environment; */
  lemma EnvironmentAskedWalk(r: Request)
    requires r.operation == PrepareEnvironment
    ensures Walk([Point(DetectTestFramework, IDLE), Point(PrepareEnvironmentRequest, IDLE), WaitingFor(r, false)])
  {
  }

  /** testing a run, */
  lemma TestingEnteredWalk()
    ensures Walk([Point(Supervisor, IDLE), Point(TestingEntry, IDLE), Point(PrepareQaKnowledge, IDLE), Point(PrepareTestRequest, IDLE)])
  {
  }

  lemma RunAskedWalk(r: Request)
    requires r.operation == RunTests
    ensures Walk([Point(PrepareTestRequest, IDLE), WaitingFor(r, false)])
  {
  }

  /** and, when it failed and has been read, a fix; */
  lemma FailureReadWalk()
    ensures Walk([Point(ReadFailingTest, IDLE), Point(ReadRelatedSource, IDLE), Point(PrepareRepairKnowledge, IDLE)])
  {
  }

  lemma FixAskedWalk(r: Request)
    requires r.operation == ApplyFix
    ensures Walk([Point(PrepareRepairKnowledge, IDLE), Point(PrepareFix, IDLE), WaitingFor(r, false)])
  {
  }

  /** both subgraphs lead back to the supervisor, */
  lemma SubgraphsReturn(s: Approval)
    ensures Completes(Point(ImplementationExit, s), Point(Supervisor, s)) && Completes(Point(TestingExit, s), Point(Supervisor, s))
  {
  }

  /** and the request can be finished. */
  lemma FinishWalk()
    ensures Walk([Point(Supervisor, IDLE), Point(FinalizeNode, IDLE), Point(Evaluations, IDLE), Point(End, IDLE)])
  {
  }
}
