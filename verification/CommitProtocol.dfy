/** Commit results, promotions and reconciliations, and exact-commit safety over whole runs (graph/git_workflow.py). */
module CommitProtocol {
  import opened Prelude
  import opened WorkflowState
  import opened CiEligibility
  import opened CiService
  import opened CiPipeline
  import opened CiReconciliation
  import opened SupervisorGuards

  // ---------------------------------------------------------------- recording a commit

  predicate InHistory(history: seq<CommitRecord>, sha: Option<string>) {
    exists i :: 0 <= i < |history| && history[i].sha == sha
  }

  ghost predicate NoRepeatedSha(history: seq<CommitRecord>) {
    forall i, j :: 0 <= i < j < |history| ==> history[i].sha != history[j].sha
  }

  function RecordCommit(c: Commits, sha: Option<string>): Commits {
    c.(history := if InHistory(c.history, sha) then c.history else c.history + [CommitRecord(c.repairPhase, sha)],
       head := sha,
       developer := if c.repairPhase then c.developer else sha,
       repair := if c.repairPhase then sha else c.repair)
  }

  /** A repair commit that does not move past the rejected one ends the request; any other one has to be validated anew. */
  function CommitUpdates(w: Workflow, sha: Option<string>, recovery: bool): Workflow {
    var base := w.(commits := RecordCommit(w.commits, sha), pending := PendingApproval(None, false, NoApproval));
    var cleared := if recovery then base.(terminal := None, failure := base.failure.(stage := None, kind := None)) else base;
    if !w.commits.repairPhase then cleared
    else if sha == w.repair.sourceCommit then
      cleared.(repair := w.repair.(state := RepairFailed), terminal := Some(CiFailed),
               failure := w.failure.(stage := Some(OtherStage), kind := Some("ci_repair_commit_not_advanced")))
    else
      cleared.(repair := w.repair.(state := Running, targetCommit := sha),
               ci := w.ci.(validated := None, eligible := false, eligibility := None))
  }

  method GitCommitStateUpdates(w: Workflow, sha: Option<string>, recovery: bool) returns (r: Workflow)
    ensures r == CommitUpdates(w, sha, recovery)
  {
    var history := w.commits.history;
    var known := false;
    var i := 0;
    while i < |history| && !known
      invariant 0 <= i <= |history|
      invariant !known ==> forall j :: 0 <= j < i ==> history[j].sha != sha
      invariant known ==> InHistory(history, sha)
      decreases |history| - i, !known
    {
      if history[i].sha == sha {
        known := true;
      } else {
        i := i + 1;
      }
    }
    if !known {
      history := history + [CommitRecord(w.commits.repairPhase, sha)];
    }
    r := w.(
      commits := w.commits.(
        history := history,
        head := sha,
        developer := if w.commits.repairPhase then w.commits.developer else sha,
        repair := if w.commits.repairPhase then sha else w.commits.repair),
      pending := PendingApproval(None, false, NoApproval));
    if recovery {
      r := r.(terminal := None, failure := r.failure.(stage := None, kind := None));
    }
    if w.commits.repairPhase {
      if sha == w.repair.sourceCommit {
        r := r.(
          repair := w.repair.(state := RepairFailed),
          terminal := Some(CiFailed),
          failure := w.failure.(stage := Some(OtherStage), kind := Some("ci_repair_commit_not_advanced")));
      } else {
        r := r.(
          repair := w.repair.(state := Running, targetCommit := sha),
          ci := w.ci.(validated := None, eligible := false, eligibility := None));
      }
    }
  }

  /** The history never holds one commit twice, and the committed sha is in it afterwards. */
  lemma HistoryKeepsDistinct(w: Workflow, sha: Option<string>, recovery: bool)
    requires NoRepeatedSha(w.commits.history)
    ensures
      var h := CommitUpdates(w, sha, recovery).commits.history;
      && NoRepeatedSha(h)
      && InHistory(h, sha)
      && w.commits.history <= h
  {
    var c := RecordCommit(w.commits, sha);
    if !InHistory(w.commits.history, sha) {
      assert c.history[|c.history| - 1].sha == sha;
    }
  }

  /** Applying the same commit result again changes nothing; recovering with it only clears what a failure left behind. */
  lemma CommitIdempotent(w: Workflow, sha: Option<string>, first: bool, second: bool)
    requires second || !first
    ensures CommitUpdates(CommitUpdates(w, sha, first), sha, second) == CommitUpdates(w, sha, second)
  {
    RecordTwice(w.commits, sha);
    if w.commits.repairPhase {
      RepairIdempotent(w, sha, first, second);
    }
  }

  lemma RecordTwice(c: Commits, sha: Option<string>)
    ensures RecordCommit(RecordCommit(c, sha), sha) == RecordCommit(c, sha)
    ensures RecordCommit(c, sha).repairPhase == c.repairPhase
  {
    var r := RecordCommit(c, sha);
    if !InHistory(c.history, sha) {
      assert r.history[|r.history| - 1].sha == sha;
    }
    assert InHistory(r.history, sha);
  }

  lemma RepairIdempotent(w: Workflow, sha: Option<string>, first: bool, second: bool)
    requires w.commits.repairPhase && (second || !first)
    ensures CommitUpdates(CommitUpdates(w, sha, first), sha, second) == CommitUpdates(w, sha, second)
  {
    RecordTwice(w.commits, sha);
    var once := CommitUpdates(w, sha, first);
    assert once.repair.sourceCommit == w.repair.sourceCommit;
    assert once.commits == RecordCommit(w.commits, sha);
  }

  // ---------------------------------------------------------------- what a commit leaves, on the fields

  /** Every commit becomes the head, takes its phase's place among the commits, and ends the approval it waited for. */
  lemma CommitPlaced(w: Workflow, sha: Option<string>, recovery: bool)
    ensures
      var after := CommitUpdates(w, sha, recovery);
      && after.commits.head == sha
      && after.commits.repair == (if w.commits.repairPhase then sha else w.commits.repair)
      && after.commits.developer == (if w.commits.repairPhase then w.commits.developer else sha)
      && after.commits.repairPhase == w.commits.repairPhase
      && after.pending.operation.None? && after.pending.status == NoApproval
      && after.tests == w.tests && after.projectKnown == w.projectKnown && after.supervisorChoseRepair == w.supervisorChoseRepair
  {
  }

  /** A repair commit that is the rejected commit itself ends the request as failed, even in a recovery, and its verdict stands. */
  lemma NotAdvancedEnds(w: Workflow, sha: Option<string>, recovery: bool)
    requires w.commits.repairPhase && sha == w.repair.sourceCommit
    ensures
      var after := CommitUpdates(w, sha, recovery);
      && after.terminal == Some(CiFailed) && after.repair.state == RepairFailed
      && after.failure.kind == Some("ci_repair_commit_not_advanced") && after.failure.stage == Some(OtherStage)
      && after.ci == w.ci && after.repair == w.repair.(state := RepairFailed)
  {
  }

  /** Any other repair commit keeps the repair running on it, and has no verdict yet. */
  lemma AdvancedRuns(w: Workflow, sha: Option<string>, recovery: bool)
    requires w.commits.repairPhase && sha != w.repair.sourceCommit
    ensures
      var after := CommitUpdates(w, sha, recovery);
      && after.repair.state == Running && after.repair.targetCommit == sha
      && after.repair.attempts == w.repair.attempts && after.repair.lineage == w.repair.lineage
      && after.repair.sourceRun == w.repair.sourceRun && after.repair.sourceCommit == w.repair.sourceCommit
      && after.ci.validated.None? && !after.ci.eligible && after.ci.eligibility.None?
      && after.ci.decision == w.ci.decision && after.ci.runId == w.ci.runId && after.ci.state == w.ci.state
      && after.terminal == (if recovery then None else w.terminal)
  {
  }

  /** An implementation commit touches neither the repair nor the verdict. */
  lemma ImplementationLeaves(w: Workflow, sha: Option<string>, recovery: bool)
    requires !w.commits.repairPhase
    ensures
      var after := CommitUpdates(w, sha, recovery);
      && after.ci == w.ci && after.repair == w.repair
      && after.terminal == (if recovery then None else w.terminal)
      && after.failure.kind == (if recovery then None else w.failure.kind)
      && after.failure.stage == (if recovery then None else w.failure.stage)
      && after.failure.testSummary == w.failure.testSummary
  {
  }

  // ---------------------------------------------------------------- when a commit keeps promotion exact

  /** In the implementation phase: exact afterwards if and only if promotion is not allowed or covers the new candidate. */
  lemma ImplementationCommitExactIff(w: Workflow, sha: Option<string>, recovery: bool)
    requires !w.commits.repairPhase && Exact(w)
    ensures Exact(CommitUpdates(w, sha, recovery))
      <==> !w.ci.eligible || Truthy(w.commits.repair).Some? || sha == w.ci.validated
  {
    assert w.ci.eligible ==> Truthy(w.ci.validated).Some?;
  }

  /** In the repair phase: a fresh commit is always exact; the rejected one only if promotion was not allowed or covers what is then the candidate. */
  lemma RepairCommitExactIff(w: Workflow, sha: Option<string>, recovery: bool)
    requires w.commits.repairPhase && Exact(w)
    ensures Exact(CommitUpdates(w, sha, recovery))
      <==> sha != w.repair.sourceCommit || !w.ci.eligible || Truthy(Or(sha, w.commits.developer)) == w.ci.validated
  {
    assert w.ci.eligible ==> Truthy(w.ci.validated).Some?;
  }

  /** The head moves to where a merge or the preparation of the workspace put it. */
  function HeadMoved(w: Workflow, head: Option<string>): Workflow {
    w.(commits := w.commits.(head := head))
  }

  /** A moved head changes what promotion refers to only for a workflow that has no commit of its own. */
  lemma HeadMovedExactIff(w: Workflow, head: Option<string>)
    requires Exact(w)
    ensures Exact(HeadMoved(w, head))
      <==> !w.ci.eligible || Truthy(w.commits.repair).Some? || Truthy(w.commits.developer).Some? || head == w.ci.validated
  {
    assert w.ci.eligible ==> Truthy(w.ci.validated).Some?;
  }

  /** execute_git_promotion_node: the head moves to the merge result. */
  function PromotionMerged(w: Workflow, result: Option<string>): Workflow {
    HeadMoved(w, result).(pending := PendingApproval(None, false, NoApproval))
  }

  /** A merge ends the approval it waited for and touches nothing but the head beside it. */
  lemma MergePlaced(w: Workflow, result: Option<string>)
    ensures
      var after := PromotionMerged(w, result);
      && after.commits == w.commits.(head := result)
      && after.pending.operation.None? && after.pending.status == NoApproval && !after.pending.toolMatches
      && after.ci == w.ci && after.repair == w.repair && after.terminal == w.terminal && after.tests == w.tests && after.failure == w.failure
  {
  }

  // ---------------------------------------------------------------- runs

  /** How the system is set up; the graph and the CI service read one environment variable each in its own way. */
  datatype Deployment = Deployment(
    settings: Settings,
    git: bool,
    ciService: bool,
    ciPromotionRequired: Option<string>,
    allowWarnings: bool,
    promotionRequired: bool,
    autoPrepare: bool)
  {
    function Policy(): CiEligibility.Policy {
      CiEligibility.Policy(ServiceRequiresCi(ciPromotionRequired), allowWarnings)
    }

    function Integration(): SupervisorGuards.Integration {
      SupervisorGuards.Integration(git, GraphRequiresCi(ciService, ciPromotionRequired), promotionRequired, autoPrepare || promotionRequired)
    }
  }

  /** A promotion that is required is prepared without a setting of its own: offered as soon as the commit is made and its verdict in. */
  lemma RequiredPromotionOffered(d: Deployment, w: Workflow, p: Progress)
    requires d.git && (d.promotionRequired || d.autoPrepare) && w.terminal.None? && w.pending.status != Waiting && p.testsPassed
    requires p.git.stage == Committed && CommitComplete(d.Integration(), w, p) && CiSettled(d.Integration(), w)
    requires p.git.promotion == PromotionOpen
    ensures AllowedHandoffs(d.Integration(), w, p) == [SupervisorGuards.GitPromotion]
  {
  }

  /**
   * Everything that writes commits or CI fields. A CI step comes with the calls that filled the store before its two lookups,
   * the outcome of the pipeline, and the state at which the supervisor chose it. BackTo is a replay or fork from an earlier checkpoint.
   */
  datatype Action =
    | CiChosen(before: seq<Submission>, later: seq<Submission>, outcome: Outcome, chosenAt: Workflow, progress: Progress)
    | Commit(sha: Option<string>, recovery: bool)
    | PhaseChosen(repair: bool)
    | Merged(result: Option<string>)
    | HeadChosen(head: Option<string>)
    | ReconciledAt(run: Run, eligibility: Eligibility, head: Option<string>)
    | BackTo(checkpoint: nat)
    | Elsewhere(next: Workflow)

  /** The supervisor offered the CI step, and a checkpoint is an earlier state. */
  predicate Feasible(d: Deployment, past: seq<Workflow>, action: Action) {
    match action
    case CiChosen(_, _, _, chosenAt, progress) => Target.CiPipeline in AllowedHandoffs(d.Integration(), chosenAt, progress)
    case BackTo(checkpoint) => checkpoint < |past|
    case _ => true
  }

  /** The CI step of this action. */
  function Stepped(d: Deployment, w: Workflow, action: Action): Workflow
    requires action.CiChosen?
  {
    CiStep(d.settings, w, Served(d.Policy(), StoreAfter(action.before), StoreAfter(action.later), w, action.outcome))
  }

  function Act(d: Deployment, past: seq<Workflow>, action: Action): Workflow
    requires past != [] && Feasible(d, past, action)
  {
    var w := past[|past| - 1];
    match action
    case CiChosen(_, _, _, _, _) => Stepped(d, w, action)
    case Commit(sha, recovery) => CommitUpdates(w, sha, recovery)
    case PhaseChosen(repair) => w.(commits := w.commits.(repairPhase := repair))
    case Merged(result) => PromotionMerged(w, result)
    case HeadChosen(head) => HeadMoved(w, head)
    case ReconciledAt(run, e, head) =>
      var r := Reconcile(w, run, e, head);
      if r.Reconciled? then r.state else w
    case BackTo(checkpoint) => past[checkpoint]
    case Elsewhere(next) => next.(commits := w.commits, ci := w.ci)
  }

  /** What each action has to meet, over the state before it and what it writes. */
  predicate Guard(w: Workflow, action: Action) {
    match action
    case Commit(sha, _) =>
      || !w.ci.eligible
      || (if w.commits.repairPhase then sha != w.repair.sourceCommit || Truthy(Or(sha, w.commits.developer)) == w.ci.validated
          else Truthy(w.commits.repair).Some? || sha == w.ci.validated)
    case Merged(result) => HeadMayMove(w, result)
    case HeadChosen(head) => HeadMayMove(w, head)
    case ReconciledAt(run, e, head) => Reconcile(w, run, e, head).Reconciled? ==> head == Candidate(w.commits)
    case _ => true
  }

  predicate HeadMayMove(w: Workflow, head: Option<string>) {
    !w.ci.eligible || Truthy(w.commits.repair).Some? || Truthy(w.commits.developer).Some? || head == w.ci.validated
  }

  ghost predicate Follows(d: Deployment, states: seq<Workflow>, actions: seq<Action>, i: nat)
    requires i < |actions| && |states| == |actions| + 1
  {
    Feasible(d, states[..i + 1], actions[i]) && states[i + 1] == Act(d, states[..i + 1], actions[i])
  }

  ghost predicate ProtocolRun(d: Deployment, states: seq<Workflow>, actions: seq<Action>) {
    && |states| == |actions| + 1
    && forall i :: 0 <= i < |actions| ==> Follows(d, states, actions, i)
  }

  lemma CommitExactIff(w: Workflow, sha: Option<string>, recovery: bool)
    requires Exact(w)
    ensures Exact(CommitUpdates(w, sha, recovery)) <==> Guard(w, Commit(sha, recovery))
  {
    if w.commits.repairPhase {
      RepairCommitExactIff(w, sha, recovery);
    } else {
      ImplementationCommitExactIff(w, sha, recovery);
    }
  }

  /** A CI step the supervisor chose needs no guard: the graph offers it only where its service demands CI as well. */
  lemma ChosenCiStepExact(d: Deployment, w: Workflow, action: Action)
    requires action.CiChosen? && Feasible(d, [w], action) && Exact(w)
    ensures Exact(Stepped(d, w, action))
  {
    CiOfferedIff(d.Integration(), action.chosenAt, action.progress);
    GraphImpliesService(d.ciService, d.ciPromotionRequired);
    StoreIsWritten(action.before);
    StepExactIff(d.settings, d.Policy(), StoreAfter(action.before), StoreAfter(action.later), w, action.outcome);
  }

  lemma ActExactIff(d: Deployment, past: seq<Workflow>, action: Action)
    requires past != [] && Feasible(d, past, action) && forall i :: 0 <= i < |past| ==> Exact(past[i])
    ensures Exact(Act(d, past, action)) <==> Guard(past[|past| - 1], action)
  {
    var w := past[|past| - 1];
    match action
    case CiChosen(_, _, _, _, _) => ChosenCiStepExact(d, w, action);
    case Commit(sha, recovery) => CommitExactIff(w, sha, recovery);
    case PhaseChosen(_) =>
    case Merged(result) => HeadMovedExactIff(w, result);
    case HeadChosen(head) => HeadMovedExactIff(w, head);
    case ReconciledAt(run, e, head) =>
      if Reconcile(w, run, e, head).Reconciled? {
        ReconciledExactIff(w, run, e, head);
      }
    case BackTo(_) =>
    case Elsewhere(_) =>
  }

  lemma RunStepExactIff(d: Deployment, states: seq<Workflow>, actions: seq<Action>, k: nat)
    requires ProtocolRun(d, states, actions) && k < |actions| && AllUpTo(states, Exact, k)
    ensures Exact(states[k + 1]) <==> Guard(states[k], actions[k])
  {
    assert Follows(d, states, actions, k);
    ActExactIff(d, states[..k + 1], actions[k]);
  }

  /**
   * For every deployment and every run: promotion is allowed, at every state, only for the candidate that was validated
   * if and only if every action of the run meets its guard.
   */
  lemma ExactShaInEveryRun(d: Deployment, states: seq<Workflow>, actions: seq<Action>)
    requires ProtocolRun(d, states, actions) && Exact(states[0])
    ensures (forall i :: 0 <= i < |states| ==> Exact(states[i])) <==> (forall k :: 0 <= k < |actions| ==> Guard(states[k], actions[k]))
  {
    if forall i :: 0 <= i < |states| ==> Exact(states[i]) {
      forall k | 0 <= k < |actions| ensures Guard(states[k], actions[k]) {
        RunStepExactIff(d, states, actions, k);
      }
    } else if forall k :: 0 <= k < |actions| ==> Guard(states[k], actions[k]) {
      forall k | 0 <= k < |actions| && AllUpTo(states, Exact, k) ensures Exact(states[k + 1]) {
        RunStepExactIff(d, states, actions, k);
      }
      HoldsThroughout(states, Exact, |actions|);
      assert false;
    }
  }

  /** A run that misses its guard: a further implementation commit leaves the verdict on the validated one standing. */
  lemma UnguardedCommitBreaks(d: Deployment, w: Workflow, sha: Option<string>)
    requires Exact(w) && w.ci.eligible && !w.commits.repairPhase && Truthy(w.commits.repair).None? && sha != w.ci.validated
    ensures
      var states := [w, CommitUpdates(w, sha, false)];
      ProtocolRun(d, states, [Commit(sha, false)]) && !Exact(states[1])
  {
    CommitExactIff(w, sha, false);
    OneActionRun(d, w, Commit(sha, false));
  }

  /** Another: the service runs the pipeline at a head the graph has not recorded, accepts it, and reconciles. */
  lemma UnseenHeadBreaks(d: Deployment, w: Workflow, head: string, id: Option<string>, store: seq<Run>, allowWarnings: bool)
    requires Exact(w) && IsSha(head) && Some(head) != Candidate(w.commits)
    ensures
      var run := Run(id, CommitMode, Some(head), Some(head), PassedRun, Some(Accepted), "");
      var e := PromotionEligibility([run] + store, Some(head), CiEligibility.Policy(true, allowWarnings));
      var action := ReconciledAt(run, e, Some(head));
      && PipelineRun(Some(head), NoRepository, Finished(id, PassedRun, Accepted, "", Repairability(false, false, None, None), None)) == Some(run)
      && ProtocolRun(d, [w, Act(d, [w], action)], [action]) && !Exact(Act(d, [w], action))
  {
    ShaIsNormal(head);
    var run := Run(id, CommitMode, Some(head), Some(head), PassedRun, Some(Accepted), "");
    var policy := CiEligibility.Policy(true, allowWarnings);
    assert LatestCompleted([run] + store, head) == Some(run);
    EligibleExactly(Some(head), Some(run), policy);
    EligibleCommit(Some(head), Some(run), policy);
    var e := PromotionEligibility([run] + store, Some(head), policy);
    assert Reconcile(w, run, e, Some(head)).Reconciled?;
    ReconciledExactIff(w, run, e, Some(head));
    OneActionRun(d, w, ReconciledAt(run, e, Some(head)));
  }

  lemma OneActionRun(d: Deployment, w: Workflow, action: Action)
    requires Feasible(d, [w], action)
    ensures ProtocolRun(d, [w, Act(d, [w], action)], [action])
  {
    var states := [w, Act(d, [w], action)];
    assert states[..0 + 1] == [w];
    assert Follows(d, states, [action], 0);
  }

  lemma ActKeepsDistinct(d: Deployment, past: seq<Workflow>, action: Action)
    requires past != [] && Feasible(d, past, action) && forall i :: 0 <= i < |past| ==> NoRepeatedSha(past[i].commits.history)
    ensures NoRepeatedSha(Act(d, past, action).commits.history)
  {
    var w := past[|past| - 1];
    match action
    case CiChosen(before, later, outcome, _, _) =>
      StepKeepsCommits(d.settings, w, Served(d.Policy(), StoreAfter(before), StoreAfter(later), w, outcome));
    case Commit(sha, recovery) => HistoryKeepsDistinct(w, sha, recovery);
    case PhaseChosen(_) =>
    case Merged(_) =>
    case HeadChosen(_) =>
    case ReconciledAt(_, _, _) =>
    case BackTo(_) =>
    case Elsewhere(_) =>
  }

  /** No run records a commit twice, whatever its actions do to promotion. */
  lemma HistoryNeverRepeats(d: Deployment, states: seq<Workflow>, actions: seq<Action>, n: nat)
    requires ProtocolRun(d, states, actions) && NoRepeatedSha(states[0].commits.history) && n < |states|
    ensures forall i :: 0 <= i <= n ==> NoRepeatedSha(states[i].commits.history)
  {
    var distinct := (w: Workflow) => NoRepeatedSha(w.commits.history);
    forall k | 0 <= k < n && AllUpTo(states, distinct, k) ensures distinct(states[k + 1]) {
      assert Follows(d, states, actions, k);
      ActKeepsDistinct(d, states[..k + 1], actions[k]);
    }
    HoldsThroughout(states, distinct, n);
  }
}
