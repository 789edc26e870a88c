/** Which items a portfolio weighs against each other and what each pair reports (graph/planner_policy_portfolio.py). */
module PortfolioMeaning {
  import opened Prelude
  import opened PairLists
  import opened PolicyPortfolio

  // ---------------------------------------------------------------- what is active

  /** A paused item is shown but not weighed; a degraded rollout still is. */
  lemma ActiveIff(item: Item)
    ensures Active(item) <==> Visible(item) && item.status != Some("paused")
    ensures item.kind == Experiment ==> (Active(item) <==> item.status in {Some("ready"), Some("running"), Some("observing")})
    ensures item.kind == Rollout ==>
      (Active(item) <==> item.status in {Some("prepared"), Some("canary"), Some("expanding"), Some("observing"), Some("degraded")})
  {
  }

  predicate Replaces(candidate: Option<Item>, kind: Kind, item: Item) {
    candidate.Some? && candidate.value.kind == kind && Active(candidate.value) && candidate.value.id == item.id
  }

  /** The items weighed: the stored active ones that the candidate does not replace, and the candidate itself if it is active. */
  lemma ActiveMembers(stored: seq<Item>, candidate: Option<Item>, kind: Kind, item: Item)
    ensures item in ActiveItems(stored, candidate, kind) <==>
      || (item in stored && Active(item) && !Replaces(candidate, kind, item))
      || (candidate == Some(item) && item.kind == kind && Active(item))
  {
    ActiveIff(item);
    var active := Filter(Active, Filter(Visible, stored));
    assert item in active <==> item in stored && Active(item);
  }

  // ---------------------------------------------------------------- areas

  /** The keys of each area. */
  lemma PlanningAreaKeys(key: string)
    ensures PolicyArea(key) == QualityGate <==>
      key in {"planning.quality_gate.weak_threshold", "planning.quality.dimension_minimums", "quality_gate"}
    ensures PolicyArea(key) == Refinement <==> key in {"planning.refinement.strategy", "refinement"}
    ensures PolicyArea(key) == Confidence <==> key in {"planning.confidence.adjustment", "confidence"}
  {
  }

  lemma SafetyAreaKeys(key: string)
    ensures PolicyArea(key) == Risk <==> key in {"planning.risk.thresholds", "risk"}
    ensures PolicyArea(key) == Approval <==> key in {"planning.approval_policy", "approval"}
  {
  }

  lemma OtherAreaKeys(key: string)
    ensures PolicyArea(key) == Git <==> key in {"git.workflow.promotion", "git"}
    ensures PolicyArea(key).Unlisted? ==> PolicyArea(key).key == key
  {
  }

  predicate RelatedAreas(a: Area, b: Area) {
    || (a == QualityGate && b in {Refinement, Confidence, Risk})
    || (a == Confidence && b == Risk)
  }

  /** Related are the quality gate with refinement, confidence and risk, and confidence with risk; Git is independent of all. */
  lemma RelationshipIff(a: Area, b: Area)
    ensures AreaRelationship(a, b) == SameArea <==> a == b
    ensures AreaRelationship(a, b) == Related <==> RelatedAreas(a, b) || RelatedAreas(b, a)
    ensures AreaRelationship(a, b) == Conflicting <==> {a, b} == {Risk, Approval}
  {
    AreasSymmetric(a, b);
    assert {a, b} == {Risk, Approval} <==> (a == Risk && b == Approval) || (a == Approval && b == Risk);
  }

  /** The areas whose policies move a metric. */
  lemma InfluenceIff(area: Area, metric: string)
    ensures metric in MetricInfluence(area) <==>
      || (metric in {"successful_with_repair_rate", "repair_rate", "refinement_effectiveness_rate", "average_quality_score"}
          && area in {QualityGate, Refinement})
      || (metric in {"quality_gate_false_positive_rate", "quality_gate_false_negative_rate"} && area == QualityGate)
      || (metric in {"average_confidence_absolute_error", "confidence_absolute_error"} && area == Confidence)
      || (metric == "risk_underestimated_rate" && area in {Risk, Approval})
  {
  }

  // ---------------------------------------------------------------- what a pair reports

  /** Another policy of the same scope, in the same or a related area. */
  predicate Neighbours(left: Item, right: Item) {
    && left.scope == right.scope && left.policyKey != right.policyKey
    && var a, b := PolicyArea(Text(left.policyKey)), PolicyArea(Text(right.policyKey));
       a == b || RelatedAreas(a, b) || RelatedAreas(b, a)
  }

  predicate Rivals(left: Item, right: Item) {
    left.scope == right.scope && {PolicyArea(Text(left.policyKey)), PolicyArea(Text(right.policyKey))} == {Risk, Approval}
  }

  predicate OneTarget(left: Item, right: Item) {
    left.scope == right.scope && left.policyKey == right.policyKey
  }

  /** left's policy moves the metric right is measured by. */
  predicate Disturbs(left: Item, right: Item) {
    Text(right.primaryMetric) in MetricInfluence(PolicyArea(Text(left.policyKey)))
  }

  lemma PairRelations(left: Item, right: Item)
    ensures Clash(left, right) <==> Rivals(left, right)
    ensures SameTarget(left, right) <==> OneTarget(left, right)
    ensures !SameTarget(left, right) ==> (Kindred(left, right) <==> Neighbours(left, right))
    ensures Interferes(left, right) <==> Disturbs(left, right)
    ensures Rivals(left, right) ==> !OneTarget(left, right)
  {
    RelationshipIff(PolicyArea(Text(left.policyKey)), PolicyArea(Text(right.policyKey)));
  }

  /** The conflict two experiments, or an experiment and a rollout, are reported with. */
  predicate Opposed(t: ConflictType, left: Item, right: Item) {
    || (t == SamePolicy && right.kind == Experiment && OneTarget(left, right))
    || (t == RolloutExperiment && right.kind == Rollout && OneTarget(left, right))
    || (t == PolicyDependency && Rivals(left, right))
  }

  lemma BlockingPair(left: Item, right: Item, f: Finding)
    ensures f in Between(Blocking, left, right) <==> f.left == left && f.right == right && Opposed(f.conflictType, left, right)
  {
    PairRelations(left, right);
  }

  lemma ExperimentWarnings(left: Item, right: Item, f: Finding)
    requires right.kind == Experiment
    ensures f in Between(Warning, left, right) <==>
      && !OneTarget(left, right)
      && (|| (f == Finding(SameScope, left, right) && Neighbours(left, right))
          || (f == Finding(MetricInterference, left, right) && Disturbs(left, right))
          || (f == Finding(MetricInterference, right, left) && Disturbs(right, left)))
  {
    PairRelations(left, right);
    PairRelations(right, left);
  }

  lemma RolloutWarnings(left: Item, right: Item, f: Finding)
    requires right.kind == Rollout
    ensures f in Between(Warning, left, right) <==>
      !OneTarget(left, right) && f == Finding(PlannerExperimentInterference, left, right) && Neighbours(left, right)
  {
    PairRelations(left, right);
  }

  /** How many warnings a pair gives: one for each reason. */
  lemma WarningCount(left: Item, right: Item)
    ensures |Between(Warning, left, right)| ==
      if OneTarget(left, right) then 0
      else
        (if Neighbours(left, right) then 1 else 0)
        + (if right.kind == Experiment && Disturbs(left, right) then 1 else 0)
        + (if right.kind == Experiment && Disturbs(right, left) then 1 else 0)
  {
    PairRelations(left, right);
    PairRelations(right, left);
  }

  ghost predicate Before(items: seq<Item>, left: Item, right: Item) {
    exists i, j :: 0 <= i < j < |items| && items[i] == left && items[j] == right
  }

  lemma PairedWith(severity: Severity, items: seq<Item>, f: Finding)
    ensures f in Pairs(Report(severity), items)
      <==> exists i, j :: 0 <= i < j < |items| && f in Between(severity, items[i], items[j])
  {
    PairsOrigin(Report(severity), items, f);
    assert forall l, r :: Report(severity)(l, r) == Between(severity, l, r);
  }

  lemma CrossedWith(severity: Severity, experiments: seq<Item>, rollouts: seq<Item>, f: Finding)
    ensures f in Cross(Report(severity), experiments, rollouts)
      <==> exists i, j :: 0 <= i < |experiments| && 0 <= j < |rollouts| && f in Between(severity, experiments[i], rollouts[j])
  {
    CrossOrigin(Report(severity), experiments, rollouts, f);
    assert forall l, r :: Report(severity)(l, r) == Between(severity, l, r);
  }

  lemma PairConflict(experiments: seq<Item>, f: Finding)
    ensures f in Pairs(Report(Blocking), experiments) <==> Before(experiments, f.left, f.right) && Opposed(f.conflictType, f.left, f.right)
  {
    PairedWith(Blocking, experiments, f);
    forall i, j | 0 <= i < j < |experiments|
      ensures f in Between(Blocking, experiments[i], experiments[j]) <==>
        f.left == experiments[i] && f.right == experiments[j] && Opposed(f.conflictType, f.left, f.right)
    {
      BlockingPair(experiments[i], experiments[j], f);
    }
  }

  lemma CrossConflict(experiments: seq<Item>, rollouts: seq<Item>, f: Finding)
    ensures f in Cross(Report(Blocking), experiments, rollouts)
      <==> f.left in experiments && f.right in rollouts && Opposed(f.conflictType, f.left, f.right)
  {
    CrossedWith(Blocking, experiments, rollouts, f);
    forall i, j | 0 <= i < |experiments| && 0 <= j < |rollouts|
      ensures f in Between(Blocking, experiments[i], rollouts[j]) <==>
        f.left == experiments[i] && f.right == rollouts[j] && Opposed(f.conflictType, f.left, f.right)
    {
      BlockingPair(experiments[i], rollouts[j], f);
    }
  }

  /** The conflicts reported: one for every pair of active items, in the order of the lists, that cannot both run. */
  lemma ConflictsIff(experiments: seq<Item>, rollouts: seq<Item>, f: Finding)
    ensures f in Reported(Blocking, experiments, rollouts) <==>
      && (Before(experiments, f.left, f.right) || (f.left in experiments && f.right in rollouts))
      && Opposed(f.conflictType, f.left, f.right)
  {
    PairConflict(experiments, f);
    CrossConflict(experiments, rollouts, f);
  }

  predicate WarnedBefore(f: Finding) {
    (f.conflictType == SameScope && Neighbours(f.left, f.right))
    || (f.conflictType == MetricInterference && !OneTarget(f.left, f.right) && Disturbs(f.left, f.right))
  }

  /** Metric interference has its own direction, so it may set a later experiment against an earlier one. */
  predicate WarnedAfter(f: Finding) {
    f.conflictType == MetricInterference && !OneTarget(f.left, f.right) && Disturbs(f.left, f.right)
  }

  lemma PairWarning(experiments: seq<Item>, f: Finding)
    requires AllOf(Experiment, experiments)
    ensures f in Pairs(Report(Warning), experiments) <==>
      || (Before(experiments, f.left, f.right) && WarnedBefore(f))
      || (Before(experiments, f.right, f.left) && WarnedAfter(f))
  {
    PairedWith(Warning, experiments, f);
    forall i, j | 0 <= i < j < |experiments|
      ensures f in Between(Warning, experiments[i], experiments[j]) <==>
        || (f.left == experiments[i] && f.right == experiments[j] && WarnedBefore(f))
        || (f.left == experiments[j] && f.right == experiments[i] && WarnedAfter(f))
    {
      ExperimentWarnings(experiments[i], experiments[j], f);
    }
  }

  lemma CrossWarning(experiments: seq<Item>, rollouts: seq<Item>, f: Finding)
    requires AllOf(Rollout, rollouts)
    ensures f in Cross(Report(Warning), experiments, rollouts) <==>
      f.conflictType == PlannerExperimentInterference && f.left in experiments && f.right in rollouts && Neighbours(f.left, f.right)
  {
    CrossedWith(Warning, experiments, rollouts, f);
    forall i, j | 0 <= i < |experiments| && 0 <= j < |rollouts|
      ensures f in Between(Warning, experiments[i], rollouts[j]) <==>
        && f.conflictType == PlannerExperimentInterference && f.left == experiments[i] && f.right == rollouts[j]
        && Neighbours(f.left, f.right)
    {
      RolloutWarnings(experiments[i], rollouts[j], f);
    }
  }

  /** The warnings reported: neighbours in one scope, and policies that move another experiment's metric. */
  lemma WarningsIff(experiments: seq<Item>, rollouts: seq<Item>, f: Finding)
    requires AllOf(Experiment, experiments) && AllOf(Rollout, rollouts)
    ensures f in Reported(Warning, experiments, rollouts) <==>
      || (Before(experiments, f.left, f.right) && WarnedBefore(f))
      || (Before(experiments, f.right, f.left) && WarnedAfter(f))
      || (f.conflictType == PlannerExperimentInterference && f.left in experiments && f.right in rollouts && Neighbours(f.left, f.right))
  {
    PairWarning(experiments, f);
    CrossWarning(experiments, rollouts, f);
  }

  /** Blocked by any conflict, warned by warnings alone, isolated with neither. */
  lemma IsolationIff(conflicts: nat, warnings: nat)
    ensures Status(conflicts, warnings) == Blocked <==> conflicts >= 1
    ensures Status(conflicts, warnings) == Isolated <==> conflicts == 0 && warnings == 0
  {
  }
}
