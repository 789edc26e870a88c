/**
 * Whole runs of the graph, approvals, supervisor, commits and CI together: what is merged is validated
 * (graph/builder.py, graph/supervisor/service.py, graph/git_workflow.py, graph/persistence_service.py).
 */
module PromotionRuns {
  import opened Prelude
  import opened WorkflowState
  import opened CiEligibility
  import opened CiReconciliation
  import opened CommitProtocol
  import Graph = ApprovalGraph
  import Guards = SupervisorGuards

  /** Where the graph stands, its state, and the supervisor's last decision. */
  datatype Config = Config(point: Graph.Point, w: Workflow, decided: Option<Guards.Target>)

  /** The approval graph and the guards look at one and the same approval status. */
  predicate Coherent(c: Config) {
    c.point.state.status == c.w.pending.status
  }

  predicate Waits(c: Config) {
    c.w.pending.status.Waiting?
  }

  /** route_after_supervisor, for what the supervisor decided last. */
  function NodeOf(decided: Option<Guards.Target>): Graph.Node {
    if decided.None? then Graph.FinalizeNode
    else match decided.value
      case Planning => Graph.Planning
      case InspectWorkspace => Graph.InspectWorkspace
      case Implementation => Graph.ImplementationEntry
      case TestingRepair => Graph.TestingEntry
      case GitWorkflow => Graph.GitWorkflow
      case CiPipeline => Graph.CiPipeline
      case GitPromotion => Graph.GitPromotion
      case Finalize => Graph.FinalizeNode
  }

  /** One move: its cause, what it writes of commits and CI, what the guards see of the other stages, and whether an interrupt is registered. */
  datatype Move = Move(cause: Graph.Cause, action: Action, progress: Guards.Progress, looping: bool, interrupted: bool)

  /** What each node may write of commits and CI. */
  predicate Writes(n: Graph.Node, action: Action) {
    match n
    case GitWorkflow => action.HeadChosen? || action.PhaseChosen? || action.Elsewhere?
    case ExecuteGitCommit => action.Commit? && !action.recovery
    case CiPipeline => action.CiChosen?
    case ExecuteGitPromotion => action.Merged?
    case _ => action.Elsewhere?
  }

  /** Without a waiting approval the supervisor takes the target its guards leave, or gives up on a loop; otherwise the old decision stands. */
  predicate Decides(d: Deployment, p: Config, decided: Option<Guards.Target>, m: Move) {
    if Guards.ApprovalBlocks(p.w) then decided == p.decided
    else if m.looping then decided == Some(Guards.Finalize)
    else decided.Some? && Guards.AllowedHandoffs(d.Integration(), p.w, m.progress) == [decided.value]
  }

  predicate NodeStep(d: Deployment, p: Config, q: Config, m: Move) {
    if q.point == p.point then q.decided == p.decided && m.action.Elsewhere?
    else
      && Graph.Completes(p.point, q.point) && Writes(p.point.node, m.action)
      && (if p.point.node.Supervisor? then Decides(d, p, q.decided, m) && q.point.node == NodeOf(q.decided) else q.decided == p.decided)
  }

  /** A reconciled CI run, unless the service leaves the graph alone, or a Git operation found done, which clears the approval. */
  predicate ResultStep(p: Config, q: Config, m: Move) {
    && Graph.ResultWritten(p.point, q.point)
    && (q.decided == p.decided || q.decided.None?)
    && match m.action
       case ReconciledAt(run, e, head) =>
         && ReconcileSuccessfulRun(p.w, m.interrupted, p.point.node.Supervisor?, run, e, head).Continue?
         && (if Reconcile(p.w, run, e, head).clearsInterrupt then Graph.Cleared(q.point.state)
             else Graph.Untouched(p.point.state, q.point.state))
       case Commit(_, recovery) => recovery && Graph.Cleared(q.point.state)
       case Merged(_) => Graph.Cleared(q.point.state)
       case _ => false
  }

  /** A replay, or a fork; a fork is written as the planning node only where planning produced the checkpoint. */
  predicate ReturnStep(past: seq<Config>, q: Config, m: Move, k: nat) {
    && k < |past| && m.action == BackTo(k) && Graph.ReplayAllowed(past[k].point)
    && q.decided == past[k].decided
    && (q.point == past[k].point
        || (Graph.Forks(past[k].point, q.point) && (q.point.node.RiskPolicy? ==> past[k].decided == Some(Guards.Planning))))
  }

  function States(configs: seq<Config>): (r: seq<Workflow>)
    ensures |r| == |configs|
  {
    seq(|configs|, i requires 0 <= i < |configs| => configs[i].w)
  }

  /** Beyond where the graph goes: commits and CI change as the action says, the rest of the state is free. */
  ghost predicate Step(d: Deployment, past: seq<Config>, q: Config, m: Move)
    requires past != []
  {
    var p := past[|past| - 1];
    && Coherent(q)
    && Feasible(d, States(past), m.action)
    && q.w.commits == Act(d, States(past), m.action).commits && q.w.ci == Act(d, States(past), m.action).ci
    && match m.cause
       case ByNode => NodeStep(d, p, q, m)
       case ByResult => ResultStep(p, q, m)
       case ByReturn(k) => ReturnStep(past, q, m, k)
  }

  ghost predicate Follows(d: Deployment, configs: seq<Config>, moves: seq<Move>, i: nat)
    requires i < |moves| && |configs| == |moves| + 1
  {
    Step(d, configs[..i + 1], configs[i + 1], moves[i])
  }

  ghost predicate Run(d: Deployment, configs: seq<Config>, moves: seq<Move>) {
    && |configs| == |moves| + 1
    && configs[0].point == Graph.Point(Graph.DetectIntent, Graph.Approval(None, NoApproval, false))
    && configs[0].decided.None? && Coherent(configs[0])
    && forall i :: 0 <= i < |moves| ==> Follows(d, configs, moves, i)
  }

  // ---------------------------------------------------------------- who writes, who decides, where one may return to

  /** Each change of commits and CI belongs to one node; every node but three may also leave them as they are. */
  lemma WritersIff(n: Graph.Node, action: Action)
    ensures Writes(n, action) <==>
      match action
      case Commit(_, recovery) => n == Graph.ExecuteGitCommit && !recovery
      case Merged(_) => n == Graph.ExecuteGitPromotion
      case CiChosen(_, _, _, _, _) => n == Graph.CiPipeline
      case HeadChosen(_) => n == Graph.GitWorkflow
      case PhaseChosen(_) => n == Graph.GitWorkflow
      case Elsewhere(_) => n !in {Graph.ExecuteGitCommit, Graph.ExecuteGitPromotion, Graph.CiPipeline}
      case _ => false
  {
  }

  /** The supervisor decides one thing only: the target its guards leave, the end on a loop, and nothing new over an approval. */
  lemma DecidesIff(d: Deployment, p: Config, decided: Option<Guards.Target>, m: Move)
    ensures Decides(d, p, decided, m) <==>
      decided ==
        if p.w.pending.status == Waiting then p.decided
        else if m.looping then Some(Guards.Finalize)
        else Some(TheTarget(d, p.w, m.progress))
  {
    if !Guards.ApprovalBlocks(p.w) {
      var allowed := Guards.AllowedHandoffs(d.Integration(), p.w, m.progress);
      Guards.OneTarget(d.Integration(), p.w, m.progress);
      assert allowed == [allowed[0]];
    }
  }

  /** The first target the guards allow. */
  function TheTarget(d: Deployment, w: Workflow, progress: Guards.Progress): Guards.Target {
    var allowed := Guards.AllowedHandoffs(d.Integration(), w, progress);
    if allowed == [] then Guards.Finalize else allowed[0]
  }

  /** A replay goes back to the point and decision of an earlier state; a fork may also go where forks go from there. */
  lemma ReturnStepIff(past: seq<Config>, q: Config, m: Move, k: nat)
    requires k < |past| && Graph.ReplayAllowed(past[k].point)
    ensures ReturnStep(past, q, m, k) <==>
      && m.action == BackTo(k) && q.decided == past[k].decided
      && (q.point != past[k].point ==>
            Graph.Forks(past[k].point, q.point) && (q.point.node == Graph.RiskPolicy ==> past[k].decided == Some(Guards.Planning)))
  {
  }

  // ---------------------------------------------------------------- promotion nodes are reached with a validated candidate

  predicate Promoting(n: Graph.Node) {
    n.GitPromotion? || n.PromotionApproval? || n.ExecuteGitPromotion? || n.RejectGitPromotion?
  }

  /** The old decision to promote may be followed again. */
  predicate MayPromoteAgain(c: Config) {
    c.point.node.Supervisor? && c.decided == Some(Guards.GitPromotion) && Waits(c)
  }

  predicate Sound(c: Config) {
    && Coherent(c)
    && (Promoting(c.point.node) || MayPromoteAgain(c) ==> Guards.Validated(c.w))
    && (c.decided == Some(Guards.GitPromotion) ==> Promoting(c.point.node) || c.point.node.Supervisor?)
  }

  predicate DemandsCi(d: Deployment) {
    d.git && d.Integration().ciRequired
  }

  lemma ValidatedDepends(v: Workflow, w: Workflow)
    requires v.commits == w.commits && v.ci == w.ci
    ensures Guards.Validated(v) <==> Guards.Validated(w)
  {
  }

  /** Promotion is chosen only with the candidate validated. */
  lemma ChosenValidated(d: Deployment, p: Config, decided: Option<Guards.Target>, m: Move)
    requires DemandsCi(d) && Decides(d, p, decided, m) && decided == Some(Guards.GitPromotion) && !Waits(p)
    ensures Guards.Validated(p.w)
  {
    assert Guards.GitPromotion in Guards.AllowedHandoffs(d.Integration(), p.w, m.progress);
  }

  lemma OnlyPromotionPromotes(decided: Option<Guards.Target>)
    ensures Promoting(NodeOf(decided)) <==> decided == Some(Guards.GitPromotion)
    ensures !NodeOf(decided).Supervisor?
  {
  }

  lemma SupervisorSound(d: Deployment, p: Config, q: Config, m: Move)
    requires DemandsCi(d) && Sound(p) && Coherent(q) && p.point.node.Supervisor? && NodeStep(d, p, q, m) && q.point != p.point
    requires q.w.commits == p.w.commits && q.w.ci == p.w.ci
    ensures Sound(q)
  {
    ValidatedDepends(p.w, q.w);
    OnlyPromotionPromotes(q.decided);
    if q.decided == Some(Guards.GitPromotion) && !Waits(p) {
      ChosenValidated(d, p, q.decided, m);
    }
  }

  /** Off the supervisor, only promotion nodes lead to promotion nodes, and none of them changes commits or CI on the way. */
  lemma Onward(p: Graph.Point, q: Graph.Point)
    requires Graph.Completes(p, q) && !p.node.Supervisor?
    ensures Promoting(q.node) ==> Promoting(p.node) && !p.node.ExecuteGitPromotion?
    ensures Promoting(p.node) ==> Promoting(q.node) || q.node.Supervisor? || q.node.End?
    ensures p.node.ExecuteGitPromotion? ==> !q.state.status.Waiting?
    ensures p.node.RejectGitPromotion? ==> q.node.Supervisor? && q.state.status == p.state.status
  {
  }

  lemma NodeSound(d: Deployment, p: Config, q: Config, m: Move)
    requires DemandsCi(d) && Sound(p) && Coherent(q) && !p.point.node.Supervisor? && NodeStep(d, p, q, m) && q.point != p.point
    requires m.action.Elsewhere? ==> q.w.commits == p.w.commits && q.w.ci == p.w.ci
    ensures Sound(q)
  {
    Onward(p.point, q.point);
    if m.action.Elsewhere? {
      ValidatedDepends(p.w, q.w);
    }
  }

  /** A reconciliation that meets its guard leaves a validated candidate validated. */
  lemma ReconciledValidated(w: Workflow, action: Action)
    requires action.ReconciledAt? && Guard(w, action) && Guards.Validated(w)
    ensures
      var r := Reconcile(w, action.run, action.eligibility, action.head);
      Guards.Validated(if r.Reconciled? then r.state else w)
  {
  }

  /**
   * The one thing the claim asks for: a run reconciled into a graph that has a promotion waiting, but no interrupt registered
   * for it yet, is one of the candidate. With the interrupt registered the service leaves such a graph alone.
   */
  predicate NoUnseenHead(p: Config, m: Move) {
    var exposed := Waits(p) && p.decided == Some(Guards.GitPromotion) && !m.interrupted;
    m.cause.ByResult? && m.action.ReconciledAt? && exposed ==> Guard(p.w, m.action)
  }

  lemma ResultSound(d: Deployment, past: seq<Config>, q: Config, m: Move)
    requires past != [] && Sound(past[|past| - 1]) && Step(d, past, q, m) && m.cause.ByResult?
    requires NoUnseenHead(past[|past| - 1], m)
    ensures Sound(q)
  {
    var p := past[|past| - 1];
    if MayPromoteAgain(q) {
      assert Waits(p) && Guards.Validated(p.w);
      ReconciledValidated(p.w, m.action);
      ValidatedDepends(q.w, Act(d, States(past), m.action));
    }
  }

  lemma ReturnSound(d: Deployment, past: seq<Config>, q: Config, m: Move, k: nat)
    requires past != [] && (forall i :: 0 <= i < |past| ==> Sound(past[i])) && Step(d, past, q, m) && m.cause == Graph.ByReturn(k)
    ensures Sound(q)
  {
    var origin := past[k];
    assert States(past)[k] == origin.w;
    ValidatedDepends(origin.w, q.w);
  }

  lemma StepSound(d: Deployment, past: seq<Config>, q: Config, m: Move)
    requires DemandsCi(d) && past != [] && (forall i :: 0 <= i < |past| ==> Sound(past[i])) && Step(d, past, q, m)
    requires NoUnseenHead(past[|past| - 1], m)
    ensures Sound(q)
  {
    var p := past[|past| - 1];
    match m.cause
    case ByNode =>
      if q.point == p.point {
        ValidatedDepends(p.w, q.w);
      } else if p.point.node.Supervisor? {
        SupervisorSound(d, p, q, m);
      } else {
        NodeSound(d, p, q, m);
      }
    case ByResult => ResultSound(d, past, q, m);
    case ByReturn(k) => ReturnSound(d, past, q, m, k);
  }

  lemma FollowSound(d: Deployment, configs: seq<Config>, moves: seq<Move>, k: nat)
    requires DemandsCi(d) && k < |moves| && |configs| == |moves| + 1 && Follows(d, configs, moves, k)
    requires AllUpTo(configs, Sound, k) && NoUnseenHead(configs[k], moves[k])
    ensures Sound(configs[k + 1])
  {
    StepSound(d, configs[..k + 1], configs[k + 1], moves[k]);
  }

  lemma RunSound(d: Deployment, configs: seq<Config>, moves: seq<Move>, n: nat)
    requires DemandsCi(d) && Run(d, configs, moves) && n < |configs|
    requires forall k :: 0 <= k < |moves| ==> NoUnseenHead(configs[k], moves[k])
    ensures AllUpTo(configs, Sound, n)
  {
    forall k | 0 <= k < n && AllUpTo(configs, Sound, k) ensures Sound(configs[k + 1]) {
      assert Follows(d, configs, moves, k);
      FollowSound(d, configs, moves, k);
    }
    HoldsThroughout(configs, Sound, n);
  }

  /**
   * Where the graph demands CI, from the offer of a promotion to its merge, through its approval, replays, forks, restarts and
   * written results, the candidate is validated, eligible and accepted: so at every merge the graph carries out or finds done there.
   */
  lemma EveryMergeValidated(d: Deployment, configs: seq<Config>, moves: seq<Move>, i: nat)
    requires DemandsCi(d) && Run(d, configs, moves) && i < |moves|
    requires forall k :: 0 <= k < |moves| ==> NoUnseenHead(configs[k], moves[k])
    ensures Promoting(configs[i].point.node) ==> Guards.Validated(configs[i].w)
    ensures moves[i].action.Merged? && moves[i].cause.ByNode? ==>
      configs[i].point.node.ExecuteGitPromotion? && configs[i].w.ci.validated == Candidate(configs[i].w.commits) && configs[i].w.ci.eligible
  {
    RunSound(d, configs, moves, i);
    assert Follows(d, configs, moves, i);
    var past := configs[..i + 1];
    assert past[|past| - 1] == configs[i];
  }

  // ---------------------------------------------------------------- the condition is needed

  /** The graph waits for the approval of a promotion, and its interrupt is not registered: it stopped right after preparing it. */
  predicate PromotionPrepared(c: Config) {
    && Sound(c) && c.point.node.PromotionApproval? && c.decided == Some(Guards.GitPromotion)
    && Waits(c) && c.w.pending.operation == Some(GitMerge)
    && Graph.WaitsFor(c.point.state, GitMerge)
  }

  function At(c: Config, node: Graph.Node): Config {
    c.(point := c.point.(node := node))
  }

  function Granted(c: Config): Config {
    c.(point := Graph.Point(Graph.ExecuteGitPromotion, c.point.state.(status := Approved)),
       w := c.w.(pending := c.w.pending.(status := Approved)))
  }

  function ByNodeAlone(c: Config, progress: Guards.Progress): Move {
    Move(Graph.ByNode, Elsewhere(c.w), progress, false, false)
  }

  lemma StaleDecision(d: Deployment, c: Config, progress: Guards.Progress)
    requires c.point.node.Supervisor? && MayPromoteAgain(c)
    ensures NodeStep(d, c, At(c, Graph.GitPromotion), ByNodeAlone(c, progress))
  {
    assert Graph.Completes(c.point, At(c, Graph.GitPromotion).point);
  }

  lemma PreparedAgain(d: Deployment, c: Config, progress: Guards.Progress)
    requires c.point.node.GitPromotion? && Graph.WaitsFor(c.point.state, GitMerge)
    ensures NodeStep(d, c, At(c, Graph.PromotionApproval), ByNodeAlone(c, progress))
  {
    assert Graph.Completes(c.point, At(c, Graph.PromotionApproval).point);
  }

  lemma ApprovedAgain(d: Deployment, c: Config, progress: Guards.Progress)
    requires c.point.node.PromotionApproval?
    ensures NodeStep(d, c, Granted(c), ByNodeAlone(c, progress))
  {
    assert Graph.Completes(c.point, Granted(c).point);
  }

  /** A node that writes nothing of commits and CI. */
  lemma QuietStep(d: Deployment, past: seq<Config>, c: Config, q: Config, progress: Guards.Progress)
    requires past != [] && past[|past| - 1] == c && NodeStep(d, c, q, ByNodeAlone(c, progress))
    requires Coherent(q) && q.w.commits == c.w.commits && q.w.ci == c.w.ci
    ensures Step(d, past, q, ByNodeAlone(c, progress))
  {
    assert Feasible(d, States(past), Elsewhere(c.w)) && Act(d, States(past), Elsewhere(c.w)) == c.w;
  }

  /** From the prepared promotion through the supervisor back to its approval, and granted. */
  function Detour(c: Config, reconciled: Workflow): seq<Config> {
    var seen := At(c, Graph.Supervisor).(w := reconciled);
    [c, seen, At(seen, Graph.GitPromotion), At(seen, Graph.PromotionApproval), Granted(At(seen, Graph.PromotionApproval))]
  }

  function DetourMoves(first: Move, configs: seq<Config>, progress: Guards.Progress): seq<Move>
    requires |configs| == 5
  {
    [first, ByNodeAlone(configs[1], progress), ByNodeAlone(configs[2], progress), ByNodeAlone(configs[3], progress)]
  }

  lemma DetourDecides(d: Deployment, configs: seq<Config>, moves: seq<Move>, progress: Guards.Progress)
    requires |configs| == 5 && |moves| == 4 && moves[1] == ByNodeAlone(configs[1], progress)
    requires MayPromoteAgain(configs[1]) && Coherent(configs[1]) && configs[2] == At(configs[1], Graph.GitPromotion)
    ensures Follows(d, configs, moves, 1)
  {
    StaleDecision(d, configs[1], progress);
    QuietStep(d, configs[..2], configs[1], configs[2], progress);
  }

  lemma DetourPrepares(d: Deployment, configs: seq<Config>, moves: seq<Move>, progress: Guards.Progress)
    requires |configs| == 5 && |moves| == 4 && moves[2] == ByNodeAlone(configs[2], progress)
    requires configs[2].point.node.GitPromotion? && Graph.WaitsFor(configs[2].point.state, GitMerge)
    requires Coherent(configs[2]) && configs[3] == At(configs[2], Graph.PromotionApproval)
    ensures Follows(d, configs, moves, 2)
  {
    PreparedAgain(d, configs[2], progress);
    QuietStep(d, configs[..3], configs[2], configs[3], progress);
  }

  lemma DetourApproves(d: Deployment, configs: seq<Config>, moves: seq<Move>, progress: Guards.Progress)
    requires |configs| == 5 && |moves| == 4 && moves[3] == ByNodeAlone(configs[3], progress)
    requires configs[3].point.node.PromotionApproval? && Coherent(configs[3]) && configs[4] == Granted(configs[3])
    ensures Follows(d, configs, moves, 3)
  {
    ApprovedAgain(d, configs[3], progress);
    QuietStep(d, configs[..4], configs[3], configs[4], progress);
  }

  /** An accepted run of another head, reconciled in that moment, takes the graph to the merge of a candidate it does not cover. */
  lemma UnseenHeadMerges(d: Deployment, c: Config, run: CiEligibility.Run, e: Eligibility, head: Option<string>, progress: Guards.Progress)
    returns (configs: seq<Config>, moves: seq<Move>)
    requires PromotionPrepared(c) && Reconcile(c.w, run, e, head).Reconciled? && head != Candidate(c.w.commits)
    ensures |configs| == 5 && |moves| == 4 && configs[0] == c
    ensures forall i :: 0 <= i < 4 ==> Follows(d, configs, moves, i)
    ensures configs[4].point.node.ExecuteGitPromotion? && !Guards.Validated(configs[4].w)
  {
    configs := Detour(c, Reconcile(c.w, run, e, head).state);
    moves := DetourMoves(Move(Graph.ByResult, ReconciledAt(run, e, head), progress, false, false), configs, progress);
    ReconciledBetween(d, c, run, e, head, progress);
    assert configs[..1] == [c] && Follows(d, configs, moves, 0);
    DetourDecides(d, configs, moves, progress);
    DetourPrepares(d, configs, moves, progress);
    DetourApproves(d, configs, moves, progress);
    NotCovered(c.w, run, e, head);
  }

  lemma ReconciledBetween(d: Deployment, c: Config, run: CiEligibility.Run, e: Eligibility, head: Option<string>, progress: Guards.Progress)
    requires PromotionPrepared(c) && Reconcile(c.w, run, e, head).Reconciled? && head != Candidate(c.w.commits)
    ensures
      var q := At(c, Graph.Supervisor).(w := Reconcile(c.w, run, e, head).state);
      Step(d, [c], q, Move(Graph.ByResult, ReconciledAt(run, e, head), progress, false, false)) && MayPromoteAgain(q)
  {
    assert Guards.Validated(c.w);
  }

  lemma NotCovered(w: Workflow, run: CiEligibility.Run, e: Eligibility, head: Option<string>)
    requires Reconcile(w, run, e, head).Reconciled? && head != Candidate(w.commits)
    ensures !Guards.Validated(Reconcile(w, run, e, head).state)
  {
  }
}
