/** When the supervisor offers each target, on the fields of the state (determine_allowed_handoffs in graph/supervisor/guards.py). */
module HandoffMeaning {
  import opened Prelude
  import opened WorkflowState
  import opened SupervisorGuards

  predicate Open(w: Workflow) {
    w.terminal.None? && w.pending.status != Waiting
  }

  /** The request goes on and its tests have not passed. */
  predicate Working(w: Workflow, p: Progress) {
    Open(w) && !p.testsPassed && !p.infrastructureFailed
  }

  predicate Planned(p: Progress) {
    p.review || (p.planningStarted && p.planningValid)
  }

  predicate BranchMissing(i: Integration, p: Progress) {
    i.git && (p.git.stage in {NotInitialized, OtherGit} || !p.git.branch)
  }

  /** Planned and looked at, with a branch to work on where Git is on and there is a project. */
  predicate ReadyToWork(i: Integration, w: Workflow, p: Progress) {
    Working(w, p) && Planned(p) && p.inspected && !(p.projectAvailable && BranchMissing(i, p))
  }

  // ---------------------------------------------------------------- before the tests have passed

  lemma PlanningIff(i: Integration, w: Workflow, p: Progress)
    ensures Planning in AllowedHandoffs(i, w, p) <==>
      Working(w, p) && !p.review && (!p.planningStarted || (!p.planningValid && p.planningAttempts < p.maxPlanning))
  {
  }

  /** The workspace is looked at once planning is done, in a review at once. */
  lemma InspectIff(i: Integration, w: Workflow, p: Progress)
    ensures InspectWorkspace in AllowedHandoffs(i, w, p) <==> Working(w, p) && Planned(p) && !p.inspected
  {
  }

  /** Testing and repair follow as soon as the environment is prepared, and after failed tests as long as repairs are left. */
  lemma TestingIff(i: Integration, w: Workflow, p: Progress)
    ensures TestingRepair in AllowedHandoffs(i, w, p) <==>
      ReadyToWork(i, w, p) && if p.testsExecuted then !p.retryLimit && p.repairAttempts < 2 else p.environmentPrepared
  {
  }

  /** Implementation is offered only while there is neither an environment nor a test run, and attempts are left. */
  lemma ImplementationIff(i: Integration, w: Workflow, p: Progress)
    ensures Implementation in AllowedHandoffs(i, w, p) <==>
      ReadyToWork(i, w, p) && !p.testsExecuted && !p.environmentPrepared && p.implementationAttempts < p.maxImplementation
  {
  }

  // ---------------------------------------------------------------- once they have

  predicate CommitMade(w: Workflow, p: Progress) {
    && p.git.stage in {Committed, NoChanges, Unavailable}
    && !(w.commits.developer.Some? && w.commits.developer.value != "" && p.filesRepaired && w.commits.repair in {None, Some("")})
  }

  /** The verdict on the candidate is favourable, where one is demanded. */
  predicate VerdictIn(i: Integration, w: Workflow) {
    i.ciRequired ==>
      && w.ci.validated.Some? && w.ci.validated == Candidate(w.commits)
      && w.ci.eligible && w.ci.decision in {Some(Accepted), Some(AcceptedWithWarnings)}
  }

  /** Passed, with the commit made and its verdict in, where Git is on. */
  predicate Settled(i: Integration, w: Workflow, p: Progress) {
    Open(w) && p.testsPassed && (i.git ==> CommitMade(w, p) && VerdictIn(i, w))
  }

  predicate PromotionDue(i: Integration, p: Progress) {
    i.autoPrepare && p.git.stage == Committed && p.git.promotion == PromotionOpen
  }

  predicate NothingLeft(i: Integration, p: Progress) {
    !BranchMissing(i, p) && (i.promotionRequired ==> p.git.promotion in {PromotionStage.Completed, AlreadyPromoted})
  }

  lemma CiIff(i: Integration, w: Workflow, p: Progress)
    ensures CiPipeline in AllowedHandoffs(i, w, p) <==> Open(w) && p.testsPassed && i.git && CommitMade(w, p) && !VerdictIn(i, w)
  {
  }

  lemma PromotionIff(i: Integration, w: Workflow, p: Progress)
    ensures GitPromotion in AllowedHandoffs(i, w, p) <==> Settled(i, w, p) && PromotionDue(i, p)
  {
  }

  /** Git is offered for a missing branch, for a commit still to make, and for what a settled commit leaves to do. */
  lemma GitIff(i: Integration, w: Workflow, p: Progress)
    ensures GitWorkflow in AllowedHandoffs(i, w, p) <==>
      && i.git
      && (|| (Working(w, p) && Planned(p) && p.inspected && p.projectAvailable && BranchMissing(i, p))
          || (Open(w) && p.testsPassed && !CommitMade(w, p))
          || (Settled(i, w, p) && !PromotionDue(i, p) && !NothingLeft(i, p)))
  {
  }

  /** The request ends when it has ended, when nothing is left to do, and when something can no longer be done. */
  lemma FinalizeIff(i: Integration, w: Workflow, p: Progress)
    ensures Finalize in AllowedHandoffs(i, w, p) <==>
      || w.terminal.Some?
      || (Settled(i, w, p) && !PromotionDue(i, p) && (NothingLeft(i, p) || !i.git))
      || (Open(w) && !p.testsPassed && p.infrastructureFailed)
      || (Working(w, p) && !p.review && p.planningStarted && !p.planningValid && p.planningAttempts >= p.maxPlanning)
      || (ReadyToWork(i, w, p) && p.testsExecuted && (p.retryLimit || p.repairAttempts >= 2))
      || (ReadyToWork(i, w, p) && !p.testsExecuted && !p.environmentPrepared && p.implementationAttempts >= p.maxImplementation)
  {
  }

  // ---------------------------------------------------------------- from the list to one target

  /** t is the one target of the list that is not the end, wherever the end stands in it. */
  ghost predicate OnlyOpen(allowed: seq<Target>, t: Target) {
    t != Finalize && t in allowed && Filter(NotFinalize, allowed) == [t]
  }

  /** A handoff is mandatory for a request that has ended, for the only target that goes on, and for the end alone; never over an approval. */
  lemma MandatoryIff(w: Workflow, allowed: seq<Target>, t: Target)
    ensures ResolveMandatory(w, allowed) == Some(t) <==>
      && w.pending.status != Waiting
      && (if w.terminal.Some? then t == Finalize else OnlyOpen(allowed, t) || (t == Finalize && allowed == [Finalize]))
  {
    var open := Filter(NotFinalize, allowed);
    if |open| == 1 {
      assert open == [open[0]] && open[0] in open;
    }
    FilterEmpty(NotFinalize, allowed);
  }

  /** The fallback goes on if anything allowed does, and otherwise ends. */
  lemma FallbackMeans(allowed: seq<Target>)
    ensures SafeFallback(allowed) == Finalize <==> forall t :: t in allowed ==> t == Finalize
    ensures SafeFallback(allowed) != Finalize ==> SafeFallback(allowed) in allowed
  {
    var open := Filter(NotFinalize, allowed);
    if open != [] {
      assert open[0] in open;
    } else {
      FilterEmpty(NotFinalize, allowed);
    }
  }
}
