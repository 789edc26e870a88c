/**
 * The graph as a labelled transition system over its approval state: parent graph (graph/builder.py),
 * implementation and testing subgraphs, approval protocol (graph/nodes.py) and replay policy (graph/persistence_service.py).
 */
module ApprovalGraph {
  import opened Prelude
  import opened WorkflowState

  datatype Node =
    // parent graph
    | DetectIntent
    | Supervisor
    | LoopProbe
    | Planning
    | RiskPolicy
    | RiskApproval
    | AcceptRisk
    | RejectRisk
    | PlanningJudge
    | HybridEvaluation
    | InspectWorkspace
    | GitWorkflow
    | GitApproval
    | ExecuteGitCommit
    | RejectGitCommit
    | CiPipeline
    | GitPromotion
    | PromotionApproval
    | ExecuteGitPromotion
    | RejectGitPromotion
    | FinalizeNode
    | Evaluations
    | End
    // implementation subgraph
    | ImplementationEntry
    | EntryFailure
    | PrepareDeveloperKnowledge
    | PrepareCreateProject
    | NormalizeDependencies
    | ValidateImplementation
    | RefineImplementation
    | ImplementationApproval
    | ExecuteCreateProject
    | DetectTestFramework
    | FrameworkFailure
    | PrepareEnvironmentRequest
    | ExecutePrepareEnvironment
    | ImplementationExit
    // planning subgraph, behind its first steps
    | PreparePlannerKnowledge
    // testing and repair subgraph
    | TestingEntry
    | PrepareQaKnowledge
    | PrepareRepairKnowledge
    | PrepareTestRequest
    | TestingApproval
    | ExecuteTests
    | ReadFailingTest
    | ReadRelatedSource
    | PrepareFix
    | ExecuteFix
    | TestingExit

  /** The pending operation with its tool and arguments. */
  datatype Request = Request(operation: Operation, arguments: string)

  datatype Approval = Approval(request: Option<Request>, status: ApprovalStatus, cancelled: bool)

  predicate IsApproval(n: Node) {
    n.RiskApproval? || n.GitApproval? || n.PromotionApproval? || n.ImplementationApproval? || n.TestingApproval?
  }

  /** The execute nodes and the operation each performs. */
  function Performs(n: Node): Option<Operation> {
    match n
    case ExecuteCreateProject => Some(CreateProject)
    case ExecutePrepareEnvironment => Some(PrepareEnvironment)
    case ExecuteTests => Some(RunTests)
    case ExecuteFix => Some(ApplyFix)
    case ExecuteGitCommit => Some(GitCommit)
    case ExecuteGitPromotion => Some(GitMerge)
    case _ => None
  }

  predicate IsExecute(n: Node) {
    Performs(n).Some?
  }

  // ---------------------------------------------------------------- what nodes do to the approval state

  predicate Asks(s: Approval, t: Approval, op: Operation) {
    t.request.Some? && t.request.value.operation == op && t.status.Waiting?
  }

  predicate Untouched(s: Approval, t: Approval) {
    t.request == s.request && t.status == s.status
  }

  predicate Cleared(t: Approval) {
    t.request.None? && t.status.NoApproval?
  }

  /** approval_node: granted, rejected, or answered with something that is no decision. */
  predicate Decides(s: Approval, t: Approval) {
    || t == s.(status := Approved)
    || t == Approval(None, RejectedApproval, true)
    || t == s.(status := RejectedApproval, cancelled := true)
  }

  /** Some operation approved and waiting to be executed; otherwise the node raises. */
  predicate ApprovedPending(s: Approval) {
    s.status.Approved? && s.request.Some?
  }

  predicate Effect(n: Node, s: Approval, t: Approval) {
    match n
    case RiskApproval => Decides(s, t)
    case GitApproval => Decides(s, t)
    case PromotionApproval => Decides(s, t)
    case ImplementationApproval => Decides(s, t)
    case TestingApproval => Decides(s, t)
    case ExecuteCreateProject => ApprovedPending(s) && Cleared(t)
    case ExecutePrepareEnvironment => ApprovedPending(s) && Cleared(t)
    case ExecuteTests => ApprovedPending(s) && Cleared(t)
    case ExecuteFix => ApprovedPending(s) && Cleared(t)
    case ExecuteGitCommit => Cleared(t)
    case ExecuteGitPromotion => Cleared(t)
    case RiskPolicy => Untouched(s, t) || Asks(s, t, PlanningRisk)
    case AcceptRisk => Cleared(t) || t == s.(status := Waiting)
    case Planning => Untouched(s, t) || Cleared(t)
    case PreparePlannerKnowledge => Untouched(s, t) || Cleared(t)
    case GitWorkflow => Untouched(s, t) || Asks(s, t, GitCommit)
    case GitPromotion => Untouched(s, t) || Asks(s, t, GitMerge)
    case ValidateImplementation => Untouched(s, t) || Asks(s, t, CreateProject)
    case PrepareEnvironmentRequest => Asks(s, t, PrepareEnvironment)
    case PrepareTestRequest => Asks(s, t, RunTests)
    case PrepareFix => Untouched(s, t) || Asks(s, t, ApplyFix)
    case _ => Untouched(s, t)
  }

  predicate WaitsFor(t: Approval, op: Operation) {
    t.request.Some? && t.request.value.operation == op && t.status.Waiting?
  }

  predicate Turned(t: Approval) {
    t.status.RejectedApproval? || t.cancelled
  }

  /** route_implementation_approval and route_testing_approval; an unresolved or foreign operation raises. */
  predicate RouteSubgraphApproval(t: Approval, m: Node, first: Node, second: Node, exit: Node) {
    if Turned(t) then m == exit
    else
      && t.status.Approved? && t.request.Some?
      && (m == first || m == second) && Performs(m) == Some(t.request.value.operation)
  }

  /** The supervisor may choose any of its targets. */
  predicate SupervisorTarget(m: Node) {
    m.LoopProbe? || m.Planning? || m.InspectWorkspace? || m.ImplementationEntry? || m.TestingEntry?
    || m.GitWorkflow? || m.CiPipeline? || m.GitPromotion? || m.FinalizeNode?
  }

  /** Edges of the parent graph, given the state the node left. */
  predicate ParentRoute(n: Node, t: Approval, m: Node) {
    match n
    case DetectIntent => m.Supervisor?
    case Supervisor => SupervisorTarget(m)
    case LoopProbe => m.Supervisor?
    case Planning => m.RiskPolicy? || m.PreparePlannerKnowledge?
    case PreparePlannerKnowledge => m.RiskPolicy?
    case RiskPolicy => if WaitsFor(t, PlanningRisk) then m.RiskApproval? else m.PlanningJudge? || m.Supervisor?
    case RiskApproval => if t.status.Approved? then m.AcceptRisk? else m.RejectRisk?
    case AcceptRisk => m.PlanningJudge?
    case RejectRisk => m.FinalizeNode?
    case PlanningJudge => m.HybridEvaluation?
    case HybridEvaluation => m.Supervisor?
    case InspectWorkspace => m.Supervisor?
    case GitWorkflow => if WaitsFor(t, GitCommit) then m.GitApproval? else m.Supervisor?
    case GitApproval => if t.status.Approved? then m.ExecuteGitCommit? else m.RejectGitCommit?
    case ExecuteGitCommit => m.Supervisor?
    case RejectGitCommit => m.End?
    case CiPipeline => m.Supervisor?
    case GitPromotion => if WaitsFor(t, GitMerge) then m.PromotionApproval? else m.Supervisor?
    case PromotionApproval => if t.status.Approved? then m.ExecuteGitPromotion? else m.RejectGitPromotion?
    case ExecuteGitPromotion => m.Supervisor?
    case RejectGitPromotion => m.Supervisor?
    case FinalizeNode => m.Evaluations?
    case Evaluations => m.End?
    case _ => false
  }

  /** Edges of the implementation subgraph; its exit returns to the supervisor. */
  predicate ImplementationRoute(n: Node, t: Approval, m: Node) {
    match n
    case ImplementationEntry => m.PrepareDeveloperKnowledge? || m.DetectTestFramework? || m.EntryFailure?
    case EntryFailure => m.ImplementationExit?
    case PrepareDeveloperKnowledge => m.PrepareCreateProject?
    case PrepareCreateProject => m.NormalizeDependencies?
    case NormalizeDependencies => m.ValidateImplementation?
    case ValidateImplementation =>
      if m.ImplementationApproval? then WaitsFor(t, CreateProject)
      else m.NormalizeDependencies? || m.RefineImplementation? || m.ImplementationExit?
    case RefineImplementation => m.NormalizeDependencies?
    case ImplementationApproval => RouteSubgraphApproval(t, m, ExecuteCreateProject, ExecutePrepareEnvironment, ImplementationExit)
    case ExecuteCreateProject => m.DetectTestFramework? || m.ImplementationExit?
    case DetectTestFramework => m.PrepareEnvironmentRequest? || m.FrameworkFailure?
    case FrameworkFailure => m.ImplementationExit?
    case PrepareEnvironmentRequest => m.ImplementationApproval?
    case ExecutePrepareEnvironment => m.ImplementationExit?
    case ImplementationExit => m.Supervisor?
    case _ => false
  }

  /** Edges of the testing and repair subgraph. */
  predicate TestingRoute(n: Node, t: Approval, m: Node) {
    match n
    case TestingEntry => m.PrepareQaKnowledge? || m.ReadFailingTest? || m.ReadRelatedSource? || m.PrepareRepairKnowledge?
    case PrepareQaKnowledge => m.PrepareTestRequest?
    case PrepareRepairKnowledge => m.PrepareFix?
    case PrepareTestRequest => m.TestingApproval?
    case TestingApproval => RouteSubgraphApproval(t, m, ExecuteTests, ExecuteFix, TestingExit)
    case ExecuteTests => m.TestingExit? || m.ReadFailingTest?
    case ReadFailingTest => m.ReadRelatedSource? || m.TestingExit?
    case ReadRelatedSource => m.PrepareRepairKnowledge? || m.ReadRelatedSource? || m.TestingExit?
    case PrepareFix => if WaitsFor(t, ApplyFix) then m.TestingApproval? else m.TestingExit?
    case ExecuteFix => m.PrepareQaKnowledge? || m.TestingExit?
    case TestingExit => m.Supervisor?
    case _ => false
  }

  predicate Route(n: Node, t: Approval, m: Node) {
    ParentRoute(n, t, m) || ImplementationRoute(n, t, m) || TestingRoute(n, t, m)
  }

  datatype Point = Point(node: Node, state: Approval)

  // ---------------------------------------------------------------- what the service may go back to

  /** Node names as checkpoints report them: both subgraphs call their approval node by one name. */
  predicate SafeReplayName(n: Node) {
    || n.Supervisor? || n.LoopProbe? || n.PreparePlannerKnowledge? || n.ImplementationEntry? || n.PrepareDeveloperKnowledge? || n.TestingEntry?
    || n.PrepareQaKnowledge? || n.PrepareRepairKnowledge? || n.PrepareTestRequest? || n.ImplementationApproval? || n.TestingApproval?
    || n.ExecuteTests? || n.ReadFailingTest? || n.ReadRelatedSource? || n.PrepareFix? || n.FinalizeNode?
  }

  predicate UnsafeReplayName(n: Node) {
    || n.PrepareCreateProject? || n.ExecuteCreateProject? || n.PrepareEnvironmentRequest? || n.ExecutePrepareEnvironment?
    || n.ExecuteFix? || n.GitWorkflow? || n.GitApproval? || n.ExecuteGitCommit? || n.RejectGitCommit?
    || n.GitPromotion? || n.PromotionApproval? || n.ExecuteGitPromotion? || n.RejectGitPromotion?
  }

  predicate SubgraphApproval(n: Node) {
    n.ImplementationApproval? || n.TestingApproval?
  }

  /** build_replay_plan for a checkpoint with exactly one next node. */
  predicate ReplayAllowed(p: Point) {
    && !UnsafeReplayName(p.node)
    && SafeReplayName(p.node)
    && (SubgraphApproval(p.node) ==> WaitsFor(p.state, RunTests))
    && !p.node.ExecuteTests?
  }

  /** Where a fork continues: behind the node it is written as, or, bridged into the parent graph, behind the implementation. */
  predicate ForkTarget(origin: Node, m: Node) {
    || m.Supervisor?
    || (origin.Supervisor? && m.RiskPolicy?)
    || (origin.PrepareTestRequest? && m.TestingEntry?)
    || (origin.PrepareFix? && (m.PrepareRepairKnowledge? || m.ReadRelatedSource? || m.TestingExit?))
    || (origin.ReadFailingTest? && (m.TestingExit? || m.ReadFailingTest?))
  }

  /** The edited fields are none of the approval's; only a pending merge is dropped. */
  predicate Forks(p: Point, q: Point) {
    && (p.node.Supervisor? || p.node.PrepareTestRequest? || p.node.PrepareFix? || p.node.ReadFailingTest?)
    && ForkTarget(p.node, q.node)
    && q.state.cancelled == p.state.cancelled
    && if p.state.request.Some? && p.state.request.value.operation.GitMerge? then Cleared(q.state) else Untouched(p.state, q.state)
  }

  // ---------------------------------------------------------------- traces

  /** The node completes and hands over to the next one. */
  predicate Completes(p: Point, q: Point) {
    Effect(p.node, p.state, q.state) && Route(p.node, q.state, q.node)
  }

  /** The service writes a result for the graph: a reconciled CI run, or a Git operation found done after a crash. */
  predicate ResultWritten(p: Point, q: Point) {
    q.node.Supervisor? && q.state.cancelled == p.state.cancelled && (Untouched(p.state, q.state) || Cleared(q.state))
  }

  /** What moves the graph: its own node, a result written for it, or a replay or fork from an earlier point of the trace. */
  datatype Cause = ByNode | ByResult | ByReturn(origin: nat)

  /** A node may also not complete: it waits for a decision, raises, or is started over, and the state stays as it was. */
  predicate Step(past: seq<Point>, q: Point, cause: Cause)
    requires past != []
  {
    var p := past[|past| - 1];
    match cause
    case ByNode => Completes(p, q) || q == p
    case ByResult => ResultWritten(p, q)
    case ByReturn(k) => k < |past| && ReplayAllowed(past[k]) && (q == past[k] || Forks(past[k], q))
  }

  ghost predicate Trace(points: seq<Point>, causes: seq<Cause>) {
    && |points| == |causes| + 1
    && forall i :: 0 <= i < |causes| ==> Step(points[..i + 1], points[i + 1], causes[i])
  }

  /** An approval node handed over with its request approved. */
  predicate Granted(p: Point, q: Point, cause: Cause, r: Request) {
    cause.ByNode? && IsApproval(p.node) && q.node != p.node && q.state.status.Approved? && p.state.request == Some(r)
  }

  /** An execute node completed with this request pending, or its result was written for it. */
  predicate Executed(p: Point, q: Point, cause: Cause, r: Request) {
    !cause.ByReturn? && IsExecute(p.node) && q.node != p.node && p.state.request == Some(r)
  }

  function Grants(points: seq<Point>, causes: seq<Cause>, r: Request): nat
    requires |points| == |causes| + 1
  {
    var n := |causes|;
    if n == 0 then 0
    else Grants(points[..n], causes[..n - 1], r) + if Granted(points[n - 1], points[n], causes[n - 1], r) then 1 else 0
  }

  function Executions(points: seq<Point>, causes: seq<Cause>, r: Request): nat
    requires |points| == |causes| + 1
  {
    var n := |causes|;
    if n == 0 then 0
    else Executions(points[..n], causes[..n - 1], r) + if Executed(points[n - 1], points[n], causes[n - 1], r) then 1 else 0
  }

  /** What holds whenever the graph is at a node. */
  predicate AtNode(p: Point) {
    match p.node
    case RiskApproval => WaitsFor(p.state, PlanningRisk)
    case GitApproval => WaitsFor(p.state, GitCommit)
    case PromotionApproval => WaitsFor(p.state, GitMerge)
    case ImplementationApproval => WaitsFor(p.state, CreateProject) || WaitsFor(p.state, PrepareEnvironment)
    case TestingApproval => WaitsFor(p.state, RunTests) || WaitsFor(p.state, ApplyFix)
    case _ => IsExecute(p.node) ==> ApprovedPending(p.state) && Performs(p.node) == Some(p.state.request.value.operation)
  }

  /** What a step to another node leaves behind. */
  ghost predicate Kept(p: Point, q: Point) {
    && AtNode(q)
    && (IsExecute(q.node) ==> IsApproval(p.node) && q.state == p.state.(status := Approved) && p.state.status.Waiting?)
  }

  predicate PlainNode(n: Node) {
    !IsExecute(n) && !IsApproval(n)
  }

  lemma PlainKept(p: Point, q: Point)
    requires PlainNode(q.node)
    ensures Kept(p, q)
  {
  }

  /** The ways to an approval node. */
  predicate EntersApproval(n: Node, t: Approval, m: Node) {
    match m
    case RiskApproval => n.RiskPolicy? && WaitsFor(t, PlanningRisk)
    case GitApproval => n.GitWorkflow? && WaitsFor(t, GitCommit)
    case PromotionApproval => n.GitPromotion? && WaitsFor(t, GitMerge)
    case ImplementationApproval => n.PrepareEnvironmentRequest? || (n.ValidateImplementation? && WaitsFor(t, CreateProject))
    case TestingApproval => n.PrepareTestRequest? || (n.PrepareFix? && WaitsFor(t, ApplyFix))
    case _ => false
  }

  lemma ParentApprovals(n: Node, t: Approval, m: Node)
    requires ParentRoute(n, t, m) && IsApproval(m)
    ensures EntersApproval(n, t, m)
  {
  }

  lemma ImplementationApprovals(n: Node, t: Approval, m: Node)
    requires ImplementationRoute(n, t, m) && IsApproval(m)
    ensures EntersApproval(n, t, m)
  {
  }

  lemma TestingApprovals(n: Node, t: Approval, m: Node)
    requires TestingRoute(n, t, m) && IsApproval(m)
    ensures EntersApproval(n, t, m)
  {
  }

  lemma RequestsAsk(n: Node, s: Approval, t: Approval)
    requires Effect(n, s, t)
    ensures n.PrepareEnvironmentRequest? ==> WaitsFor(t, PrepareEnvironment)
    ensures n.PrepareTestRequest? ==> WaitsFor(t, RunTests)
  {
  }

  lemma ApprovalKept(p: Point, q: Point)
    requires EntersApproval(p.node, q.state, q.node)
    requires p.node.PrepareEnvironmentRequest? ==> WaitsFor(q.state, PrepareEnvironment)
    requires p.node.PrepareTestRequest? ==> WaitsFor(q.state, RunTests)
    ensures Kept(p, q)
  {
  }

  /** The ways to an execute node: from the approval node of its operation, which went on approved. */
  predicate EntersExecute(n: Node, t: Approval, m: Node) {
    && t.status.Approved?
    && match n
       case GitApproval => m.ExecuteGitCommit?
       case PromotionApproval => m.ExecuteGitPromotion?
       case ImplementationApproval => t.request.Some? && Performs(m) == Some(t.request.value.operation)
       case TestingApproval => t.request.Some? && Performs(m) == Some(t.request.value.operation)
       case _ => false
  }

  lemma ParentExecutes(n: Node, t: Approval, m: Node)
    requires ParentRoute(n, t, m) && IsExecute(m)
    ensures EntersExecute(n, t, m)
  {
  }

  lemma ImplementationExecutes(n: Node, t: Approval, m: Node)
    requires ImplementationRoute(n, t, m) && IsExecute(m)
    ensures EntersExecute(n, t, m)
  {
  }

  lemma TestingExecutes(n: Node, t: Approval, m: Node)
    requires TestingRoute(n, t, m) && IsExecute(m)
    ensures EntersExecute(n, t, m)
  {
  }

  lemma ApprovalsDecide(n: Node, s: Approval, t: Approval)
    requires IsApproval(n) && Effect(n, s, t) && t.status.Approved?
    ensures t == s.(status := Approved)
  {
  }

  lemma ApprovalsWait(p: Point)
    requires IsApproval(p.node) && AtNode(p)
    ensures p.state.status.Waiting? && p.state.request.Some?
    ensures p.node.GitApproval? ==> p.state.request.value.operation == GitCommit
    ensures p.node.PromotionApproval? ==> p.state.request.value.operation == GitMerge
  {
  }

  lemma ExecuteKept(p: Point, q: Point)
    requires IsExecute(q.node) && EntersExecute(p.node, q.state, q.node)
    requires q.state == p.state.(status := Approved) && p.state.status.Waiting? && p.state.request.Some?
    requires p.node.GitApproval? ==> p.state.request.value.operation == GitCommit
    requires p.node.PromotionApproval? ==> p.state.request.value.operation == GitMerge
    ensures Kept(p, q)
  {
  }

  lemma RouteToApproval(n: Node, t: Approval, m: Node)
    requires Route(n, t, m) && IsApproval(m)
    ensures EntersApproval(n, t, m)
  {
    if ParentRoute(n, t, m) {
      ParentApprovals(n, t, m);
    } else if ImplementationRoute(n, t, m) {
      ImplementationApprovals(n, t, m);
    } else {
      TestingApprovals(n, t, m);
    }
  }

  lemma RouteToExecute(n: Node, t: Approval, m: Node)
    requires Route(n, t, m) && IsExecute(m)
    ensures EntersExecute(n, t, m) && IsApproval(n)
  {
    if ParentRoute(n, t, m) {
      ParentExecutes(n, t, m);
    } else if ImplementationRoute(n, t, m) {
      ImplementationExecutes(n, t, m);
    } else {
      TestingExecutes(n, t, m);
    }
  }

  lemma CompletionKeeps(p: Point, q: Point)
    requires AtNode(p) && Completes(p, q)
    ensures Kept(p, q)
  {
    if IsApproval(q.node) {
      RouteToApproval(p.node, q.state, q.node);
      RequestsAsk(p.node, p.state, q.state);
      ApprovalKept(p, q);
    } else if IsExecute(q.node) {
      RouteToExecute(p.node, q.state, q.node);
      ApprovalsDecide(p.node, p.state, q.state);
      ApprovalsWait(p);
      ExecuteKept(p, q);
    } else {
      PlainKept(p, q);
    }
  }

  /** The service never leaves the graph at an execute node, nor at an approval node that is not waiting as it should. */
  lemma ReturnKeeps(p: Point, q: Point)
    requires AtNode(p) && ReplayAllowed(p) && (q == p || Forks(p, q))
    ensures AtNode(q) && !IsExecute(q.node)
  {
  }

  lemma StepKeeps(past: seq<Point>, q: Point, cause: Cause)
    requires past != [] && (forall i :: 0 <= i < |past| ==> AtNode(past[i])) && Step(past, q, cause)
    ensures AtNode(q)
    ensures
      var p := past[|past| - 1];
      IsExecute(q.node) && q != p ==>
        cause.ByNode? && IsApproval(p.node) && q.state == p.state.(status := Approved) && p.state.status.Waiting?
  {
    var p := past[|past| - 1];
    match cause
    case ByNode =>
      if Completes(p, q) {
        CompletionKeeps(p, q);
      }
    case ByResult =>
    case ByReturn(k) => ReturnKeeps(past[k], q);
  }

  lemma {:induction false} TraceKeeps(points: seq<Point>, causes: seq<Cause>, n: nat)
    requires Trace(points, causes) && AtNode(points[0]) && n < |points|
    ensures forall i :: 0 <= i <= n ==> AtNode(points[i])
  {
    if n > 0 {
      TraceKeeps(points, causes, n - 1);
      var past := points[..n - 1 + 1];
      assert Step(past, points[n - 1 + 1], causes[n - 1]);
      StepKeeps(past, points[n], causes[n - 1]);
    }
  }

  lemma LastStep(points: seq<Point>, causes: seq<Cause>, i: nat)
    requires Trace(points, causes) && AtNode(points[0]) && i < |causes|
    ensures AtNode(points[i]) && AtNode(points[i + 1])
    ensures IsExecute(points[i + 1].node) && points[i + 1] != points[i] ==>
      && causes[i].ByNode? && IsApproval(points[i].node)
      && points[i + 1].state == points[i].state.(status := Approved) && points[i].state.status.Waiting?
  {
    TraceKeeps(points, causes, i);
    var past := points[..i + 1];
    assert Step(past, points[i + 1], causes[i]);
    assert past[|past| - 1] == points[i];
    StepKeeps(past, points[i + 1], causes[i]);
  }

  /** Every entry to an execute node directly follows an approval granted for that very request, also across replays and forks. */
  lemma ExecuteFollowsGrant(points: seq<Point>, causes: seq<Cause>, i: nat)
    requires Trace(points, causes) && AtNode(points[0])
    requires i < |causes| && IsExecute(points[i + 1].node) && points[i + 1] != points[i]
    ensures
      var before, now := points[i], points[i + 1];
      && now.state.request.Some?
      && Granted(before, now, causes[i], now.state.request.value)
      && before.state.status.Waiting?
      && before.state.request == now.state.request
      && Performs(now.node) == Some(now.state.request.value.operation)
  {
    LastStep(points, causes, i);
  }

  predicate AboutToExecute(p: Point, r: Request) {
    IsExecute(p.node) && p.state.request == Some(r)
  }

  lemma ExecuteMovesOn(p: Point, q: Point)
    requires IsExecute(p.node) && Completes(p, q)
    ensures q.node != p.node && !IsExecute(q.node)
  {
  }

  /** One step's share of the account: what becomes about to execute was granted, what was executed is no longer about to be. */
  lemma StepBalances(points: seq<Point>, causes: seq<Cause>, i: nat, r: Request)
    requires Trace(points, causes) && AtNode(points[0]) && i < |causes|
    ensures
      var p, q := points[i], points[i + 1];
      (if Executed(p, q, causes[i], r) then 1 else 0) + (if AboutToExecute(q, r) then 1 else 0)
        <= (if Granted(p, q, causes[i], r) then 1 else 0) + (if AboutToExecute(p, r) then 1 else 0)
  {
    LastStep(points, causes, i);
    var p, q := points[i], points[i + 1];
    var past := points[..i + 1];
    assert Step(past, q, causes[i]) && past[|past| - 1] == p;
    if IsExecute(p.node) && causes[i].ByNode? && q != p {
      ExecuteMovesOn(p, q);
    }
  }

  /** Each grant is used up by at most one execution of its request. */
  lemma {:induction false} ExecutionsWithinGrants(points: seq<Point>, causes: seq<Cause>, r: Request)
    requires Trace(points, causes) && AtNode(points[0]) && !IsExecute(points[0].node)
    ensures Executions(points, causes, r) + (if AboutToExecute(points[|causes|], r) then 1 else 0) <= Grants(points, causes, r)
    decreases |causes|
  {
    var n := |causes|;
    if n > 0 {
      var before, earlier := points[..n], causes[..n - 1];
      forall i | 0 <= i < |earlier| ensures Step(before[..i + 1], before[i + 1], earlier[i]) {
        assert before[..i + 1] == points[..i + 1] && earlier[i] == causes[i];
      }
      ExecutionsWithinGrants(before, earlier, r);
      StepBalances(points, causes, n - 1, r);
    }
  }

  /**
   * In every run from the start, with nodes failing and started over, results written into the graph, replays and forks:
   * sensitive executions never exceed the approvals granted, request by request.
   */
  lemma SensitiveExecutionsApproved(points: seq<Point>, causes: seq<Cause>, r: Request)
    requires Trace(points, causes) && points[0] == Point(DetectIntent, Approval(None, NoApproval, false))
    ensures Executions(points, causes, r) <= Grants(points, causes, r)
  {
    ExecutionsWithinGrants(points, causes, r);
  }

  // ---------------------------------------------------------------- replay

  /** From a checkpoint the policy lets through, every execution during the replay is approved again during the replay. */
  lemma {:induction false} ReplayAsksAgain(points: seq<Point>, causes: seq<Cause>, r: Request)
    requires Trace(points, causes) && AtNode(points[0]) && ReplayAllowed(points[0])
    ensures Executions(points, causes, r) <= Grants(points, causes, r)
  {
    ExecutionsWithinGrants(points, causes, r);
  }

  /** Why execute nodes are refused: replayed from there, an operation runs with no approval of its own. */
  lemma ReplayFromExecuteUnapproved(p: Point, r: Request)
    requires AtNode(p) && AboutToExecute(p, r)
    ensures !ReplayAllowed(p)
    ensures exists q :: Trace([p, q], [ByNode]) && Executions([p, q], [ByNode], r) == 1 && Grants([p, q], [ByNode], r) == 0
  {
    var next := if p.node.ExecuteGitCommit? || p.node.ExecuteGitPromotion? then Supervisor
                else if p.node.ExecuteCreateProject? || p.node.ExecutePrepareEnvironment? then ImplementationExit
                else TestingExit;
    var q := Point(next, Approval(None, NoApproval, p.state.cancelled));
    assert Completes(p, q);
    OneStep(p, q, r);
    assert Trace([p, q], [ByNode]) && Executions([p, q], [ByNode], r) == 1 && Grants([p, q], [ByNode], r) == 0;
  }

  lemma OneStep(p: Point, q: Point, r: Request)
    ensures Trace([p, q], [ByNode]) <==> Completes(p, q) || q == p
    ensures Executions([p, q], [ByNode], r) == if Executed(p, q, ByNode, r) then 1 else 0
    ensures Grants([p, q], [ByNode], r) == if Granted(p, q, ByNode, r) then 1 else 0
  {
    var points := [p, q];
    assert points[..1] == [p];
    assert [ByNode][..0] == [];
    assert points[0] == p && points[1] == q;
    assert Executions([p], [], r) == 0 && Grants([p], [], r) == 0;
    var causes := [ByNode];
    if Trace(points, causes) {
      assert Step(points[..0 + 1], points[0 + 1], causes[0]);
    } else {
      var i :| 0 <= i < |causes| && !Step(points[..i + 1], points[i + 1], causes[i]);
      assert points[..i + 1] == [p] && points[i + 1] == q;
    }
  }
}
