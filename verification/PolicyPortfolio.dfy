/** Conflicts between planner-policy experiments and rollouts (graph/planner_policy_portfolio.py). */
module PolicyPortfolio {
  import opened Prelude
  import opened PairLists

  datatype Kind = Experiment | Rollout

  /** An experiment or rollout record; a key the record lacks reads as None. */
  datatype Item = Item(
    kind: Kind,
    id: Option<string>,
    policyKey: Option<string>,
    scope: Option<string>,
    primaryMetric: Option<string>,
    status: Option<string>)

  datatype Severity = Blocking | Warning

  datatype ConflictType =
    | SamePolicy
    | PolicyDependency
    | SameScope
    | MetricInterference
    | RolloutExperiment
    | PlannerExperimentInterference

  datatype Finding = Finding(conflictType: ConflictType, left: Item, right: Item)

  datatype Isolation = Blocked | Warned | Isolated

  datatype Portfolio = Portfolio(
    conflicts: seq<Finding>,
    warnings: seq<Finding>,
    blockingCount: nat,
    warningCount: nat,
    isolation: Isolation)

  /** str(x) of a missing key. */
  function Text(x: Option<string>): string {
    x.GetOr("None")
  }

  predicate Visible(item: Item) {
    var status := Text(item.status);
    match item.kind
    case Experiment => status in {"ready", "running", "observing", "paused"}
    case Rollout => status in {"prepared", "canary", "expanding", "observing", "degraded", "paused"}
  }

  predicate Active(item: Item) {
    var status := Text(item.status);
    match item.kind
    case Experiment => status in {"ready", "running", "observing"}
    case Rollout => status in {"prepared", "canary", "expanding", "observing", "degraded"}
  }

  // ---------------------------------------------------------------- areas and relationships

  /** A policy key without an area is an area of its own; a key that spells an area's name is that area. */
  datatype Area = QualityGate | Refinement | Confidence | Risk | Approval | Git | Unlisted(key: string)

  function PolicyArea(key: string): Area {
    if key in {"planning.quality_gate.weak_threshold", "planning.quality.dimension_minimums", "quality_gate"} then QualityGate
    else if key in {"planning.refinement.strategy", "refinement"} then Refinement
    else if key in {"planning.confidence.adjustment", "confidence"} then Confidence
    else if key in {"planning.risk.thresholds", "risk"} then Risk
    else if key in {"planning.approval_policy", "approval"} then Approval
    else if key in {"git.workflow.promotion", "git"} then Git
    else Unlisted(key)
  }

  datatype Relationship = SameArea | Related | Conflicting | Independent

  /** The table as written: each pair in one order only. */
  function Listed(left: Area, right: Area): Option<Relationship> {
    match (left, right)
    case (QualityGate, Refinement) => Some(Related)
    case (QualityGate, Confidence) => Some(Related)
    case (QualityGate, Risk) => Some(Related)
    case (Risk, Approval) => Some(Conflicting)
    case (Confidence, Risk) => Some(Related)
    case (Git, QualityGate) => Some(Independent)
    case (Git, Refinement) => Some(Independent)
    case (Git, Confidence) => Some(Independent)
    case (Git, Risk) => Some(Independent)
    case (Git, Approval) => Some(Independent)
    case _ => None
  }

  function AreaRelationship(left: Area, right: Area): Relationship {
    if left == right then SameArea
    else if Listed(left, right).Some? then Listed(left, right).value
    else Listed(right, left).GetOr(Independent)
  }

  lemma AreasSymmetric(a: Area, b: Area)
    ensures AreaRelationship(a, b) == AreaRelationship(b, a)
    ensures AreaRelationship(a, b) == Conflicting <==> (a == Risk && b == Approval) || (a == Approval && b == Risk)
  {
  }

  function PolicyRelationship(left: string, right: string): Relationship {
    AreaRelationship(PolicyArea(left), PolicyArea(right))
  }

  /** The relationship has no direction, and only risk against approval conflicts. */
  lemma RelationshipSymmetric(left: string, right: string)
    ensures PolicyRelationship(left, right) == PolicyRelationship(right, left)
    ensures PolicyRelationship(left, right) == Conflicting
      <==> (PolicyArea(left), PolicyArea(right)) == (Risk, Approval) || (PolicyArea(left), PolicyArea(right)) == (Approval, Risk)
  {
    AreasSymmetric(PolicyArea(left), PolicyArea(right));
  }

  function MetricInfluence(area: Area): set<string> {
    match area
    case QualityGate =>
      {"successful_with_repair_rate", "repair_rate", "refinement_effectiveness_rate",
       "quality_gate_false_positive_rate", "quality_gate_false_negative_rate", "average_quality_score"}
    case Refinement =>
      {"successful_with_repair_rate", "repair_rate", "refinement_effectiveness_rate", "average_quality_score"}
    case Confidence => {"average_confidence_absolute_error", "confidence_absolute_error"}
    case Risk => {"risk_underestimated_rate"}
    case Approval => {"risk_underestimated_rate"}
    case _ => {}
  }

  predicate Interferes(left: Item, right: Item) {
    Text(right.primaryMetric) in MetricInfluence(PolicyArea(Text(left.policyKey)))
  }

  // ---------------------------------------------------------------- what one pair reports

  predicate SameTarget(left: Item, right: Item) {
    left.policyKey == right.policyKey && left.scope == right.scope
  }

  predicate Clash(left: Item, right: Item) {
    left.scope == right.scope
    && PolicyRelationship(Text(left.policyKey), Text(right.policyKey)) == Conflicting
  }

  predicate Kindred(left: Item, right: Item) {
    left.scope == right.scope
    && PolicyRelationship(Text(left.policyKey), Text(right.policyKey)) in {Related, SameArea}
  }

  function One(report: bool, finding: Finding): seq<Finding> {
    if report then [finding] else []
  }

  /** What one turn of an inner loop appends to the conflicts or to the warnings. */
  function Between(severity: Severity, left: Item, right: Item): seq<Finding> {
    match (severity, right.kind)
    case (Blocking, Experiment) =>
      if SameTarget(left, right) then [Finding(SamePolicy, left, right)]
      else One(Clash(left, right), Finding(PolicyDependency, left, right))
    case (Blocking, Rollout) =>
      if SameTarget(left, right) then [Finding(RolloutExperiment, left, right)]
      else One(Clash(left, right), Finding(PolicyDependency, left, right))
    case (Warning, Experiment) =>
      if SameTarget(left, right) then []
      else
        One(Kindred(left, right), Finding(SameScope, left, right))
        + One(Interferes(left, right), Finding(MetricInterference, left, right))
        + One(Interferes(right, left), Finding(MetricInterference, right, left))
    case (Warning, Rollout) =>
      if SameTarget(left, right) then []
      else One(Kindred(left, right), Finding(PlannerExperimentInterference, left, right))
  }

  /** Between as a function value, for the pair loops. */
  function Report(severity: Severity): (Item, Item) -> seq<Finding> {
    (left: Item, right: Item) => Between(severity, left, right)
  }

  function Reported(severity: Severity, experiments: seq<Item>, rollouts: seq<Item>): seq<Finding> {
    Pairs(Report(severity), experiments) + Cross(Report(severity), experiments, rollouts)
  }

  function Status(conflicts: nat, warnings: nat): Isolation {
    if conflicts > 0 then Blocked else if warnings > 0 then Warned else Isolated
  }

  function NotSame(id: Option<string>): Item -> bool {
    (item: Item) => item.id != id
  }

  /** The active items of one kind, the candidate of that kind standing in for whatever is stored under its id. */
  function ActiveItems(stored: seq<Item>, candidate: Option<Item>, kind: Kind): seq<Item> {
    var active := Filter(Active, Filter(Visible, stored));
    if candidate.Some? && candidate.value.kind == kind && Active(candidate.value)
    then Filter(NotSame(candidate.value.id), active) + [candidate.value]
    else active
  }

  method EvaluatePortfolioConflicts(experiments: seq<Item>, rollouts: seq<Item>, candidate: Option<Item>) returns (portfolio: Portfolio)
    ensures
      var es, rs := ActiveItems(experiments, candidate, Experiment), ActiveItems(rollouts, candidate, Rollout);
      && portfolio.conflicts == Reported(Blocking, es, rs)
      && portfolio.warnings == Reported(Warning, es, rs)
      && portfolio.blockingCount == |portfolio.conflicts| && portfolio.warningCount == |portfolio.warnings|
      && portfolio.isolation == Status(|portfolio.conflicts|, |portfolio.warnings|)
  {
    var es, rs := ActiveItems(experiments, candidate, Experiment), ActiveItems(rollouts, candidate, Rollout);
    var conflicts := PairsLoop(Report(Blocking), es);
    var warnings := PairsLoop(Report(Warning), es);
    conflicts := CrossLoop(Report(Blocking), es, rs, conflicts);
    warnings := CrossLoop(Report(Warning), es, rs, warnings);
    portfolio := Portfolio(conflicts, warnings, |conflicts|, |warnings|, Status(|conflicts|, |warnings|));
  }

  // ---------------------------------------------------------------- when the portfolio is blocked

  /** Two active items that cannot both run: one policy in one scope, or conflicting areas in one scope. */
  predicate Incompatible(left: Item, right: Item) {
    SameTarget(left, right) || Clash(left, right)
  }

  ghost predicate SomeIncompatible(experiments: seq<Item>, rollouts: seq<Item>) {
    || (exists i, j :: 0 <= i < j < |experiments| && Incompatible(experiments[i], experiments[j]))
    || (exists i, j :: 0 <= i < |experiments| && 0 <= j < |rollouts| && Incompatible(experiments[i], rollouts[j]))
  }

  /** The first finding a pair's conflict would be. */
  function Verdict(left: Item, right: Item): Finding {
    var conflictType :=
      if !SameTarget(left, right) then PolicyDependency else if right.kind == Experiment then SamePolicy else RolloutExperiment;
    Finding(conflictType, left, right)
  }

  lemma BlockingBetween(left: Item, right: Item)
    ensures Between(Blocking, left, right) == One(Incompatible(left, right), Verdict(left, right))
  {
  }

  lemma {:induction false} PairsBlocked(experiments: seq<Item>)
    ensures Pairs(Report(Blocking), experiments) != []
      <==> exists i, j :: 0 <= i < j < |experiments| && Incompatible(experiments[i], experiments[j])
  {
    var pairs := Pairs(Report(Blocking), experiments);
    if pairs != [] {
      PairsOrigin(Report(Blocking), experiments, pairs[0]);
      var i, j :| 0 <= i < j < |experiments| && pairs[0] in Report(Blocking)(experiments[i], experiments[j]);
      BlockingBetween(experiments[i], experiments[j]);
    }
    if i, j :| 0 <= i < j < |experiments| && Incompatible(experiments[i], experiments[j]) {
      var f := Verdict(experiments[i], experiments[j]);
      BlockingBetween(experiments[i], experiments[j]);
      assert f in Report(Blocking)(experiments[i], experiments[j]);
      PairsOrigin(Report(Blocking), experiments, f);
    }
  }

  lemma CrossBlocked(experiments: seq<Item>, rollouts: seq<Item>)
    ensures Cross(Report(Blocking), experiments, rollouts) != []
      <==> exists i, j :: 0 <= i < |experiments| && 0 <= j < |rollouts| && Incompatible(experiments[i], rollouts[j])
  {
    var cross := Cross(Report(Blocking), experiments, rollouts);
    if cross != [] {
      CrossOrigin(Report(Blocking), experiments, rollouts, cross[0]);
      var i, j :| 0 <= i < |experiments| && 0 <= j < |rollouts| && cross[0] in Report(Blocking)(experiments[i], rollouts[j]);
      BlockingBetween(experiments[i], rollouts[j]);
    }
    if i, j :| 0 <= i < |experiments| && 0 <= j < |rollouts| && Incompatible(experiments[i], rollouts[j]) {
      var f := Verdict(experiments[i], rollouts[j]);
      BlockingBetween(experiments[i], rollouts[j]);
      assert f in Report(Blocking)(experiments[i], rollouts[j]);
      CrossOrigin(Report(Blocking), experiments, rollouts, f);
    }
  }

  /** The portfolio is blocked exactly when some active pair is incompatible. */
  lemma BlockedMeansIncompatible(experiments: seq<Item>, rollouts: seq<Item>)
    ensures Reported(Blocking, experiments, rollouts) != [] <==> SomeIncompatible(experiments, rollouts)
  {
    PairsBlocked(experiments);
    CrossBlocked(experiments, rollouts);
  }

  // ---------------------------------------------------------------- order independence

  /** A finding up to which of its two items is written first; metric interference keeps its direction. */
  datatype Shape = Shape(conflictType: ConflictType, sides: multiset<Item>, source: Option<Item>)

  ghost function ShapeOf(f: Finding): Shape {
    Shape(f.conflictType, multiset{f.left, f.right}, if f.conflictType == MetricInterference then Some(f.left) else None)
  }

  ghost predicate AllOf(kind: Kind, items: seq<Item>) {
    forall i :: 0 <= i < |items| ==> items[i].kind == kind
  }

  lemma TargetSymmetric(left: Item, right: Item)
    ensures SameTarget(left, right) == SameTarget(right, left)
    ensures Clash(left, right) == Clash(right, left)
    ensures Kindred(left, right) == Kindred(right, left)
  {
    RelationshipSymmetric(Text(left.policyKey), Text(right.policyKey));
  }

  lemma ShapesOne(report: bool, f: Finding)
    ensures Shapes(ShapeOf, One(report, f)) == if report then multiset{ShapeOf(f)} else multiset{}
  {
  }

  lemma BlockingSymmetric(left: Item, right: Item)
    requires left.kind == Experiment && right.kind == Experiment
    ensures Shapes(ShapeOf, Between(Blocking, left, right)) == Shapes(ShapeOf, Between(Blocking, right, left))
  {
    TargetSymmetric(left, right);
    BlockingBetween(left, right);
    BlockingBetween(right, left);
    ShapesOne(Incompatible(left, right), Verdict(left, right));
    ShapesOne(Incompatible(right, left), Verdict(right, left));
    assert multiset{left, right} == multiset{right, left};
  }

  lemma KindredSymmetric(left: Item, right: Item)
    ensures Shapes(ShapeOf, One(Kindred(left, right), Finding(SameScope, left, right)))
      == Shapes(ShapeOf, One(Kindred(right, left), Finding(SameScope, right, left)))
  {
    TargetSymmetric(left, right);
    ShapesOne(Kindred(left, right), Finding(SameScope, left, right));
    ShapesOne(Kindred(right, left), Finding(SameScope, right, left));
    assert multiset{left, right} == multiset{right, left};
  }

  lemma SilentPair(left: Item, right: Item)
    requires SameTarget(left, right)
    ensures Between(Warning, left, right) == []
  {
  }

  lemma BagsSwapped(whole: multiset<Shape>, mirrored: multiset<Shape>, k: multiset<Shape>, a: multiset<Shape>, b: multiset<Shape>)
    requires whole == k + a + b && mirrored == k + b + a
    ensures whole == mirrored
  {
  }

  lemma WarningSymmetric(left: Item, right: Item)
    requires left.kind == Experiment && right.kind == Experiment && !SameTarget(left, right)
    ensures Shapes(ShapeOf, Between(Warning, left, right)) == Shapes(ShapeOf, Between(Warning, right, left))
  {
    var whole, mirrored := Shapes(ShapeOf, Between(Warning, left, right)), Shapes(ShapeOf, Between(Warning, right, left));
    var k := Shapes(ShapeOf, One(Kindred(left, right), Finding(SameScope, left, right)));
    var a := Shapes(ShapeOf, One(Interferes(left, right), Finding(MetricInterference, left, right)));
    var b := Shapes(ShapeOf, One(Interferes(right, left), Finding(MetricInterference, right, left)));
    assert whole == k + a + b by { WarningShapes(left, right); }
    assert mirrored == k + b + a by { WarningShapes(right, left); KindredSymmetric(left, right); }
    BagsSwapped(whole, mirrored, k, a, b);
  }

  lemma BetweenSymmetric(severity: Severity, left: Item, right: Item)
    requires left.kind == Experiment && right.kind == Experiment
    ensures Shapes(ShapeOf, Between(severity, left, right)) == Shapes(ShapeOf, Between(severity, right, left))
  {
    match severity
    case Blocking => BlockingSymmetric(left, right);
    case Warning =>
      if SameTarget(left, right) {
        SilentPair(left, right);
        SilentPair(right, left);
      } else {
        WarningSymmetric(left, right);
      }
  }

  lemma WarningShapes(left: Item, right: Item)
    requires left.kind == Experiment && right.kind == Experiment && !SameTarget(left, right)
    ensures Shapes(ShapeOf, Between(Warning, left, right))
      == Shapes(ShapeOf, One(Kindred(left, right), Finding(SameScope, left, right)))
       + Shapes(ShapeOf, One(Interferes(left, right), Finding(MetricInterference, left, right)))
       + Shapes(ShapeOf, One(Interferes(right, left), Finding(MetricInterference, right, left)))
  {
    var a := One(Kindred(left, right), Finding(SameScope, left, right));
    var b := One(Interferes(left, right), Finding(MetricInterference, left, right));
    var c := One(Interferes(right, left), Finding(MetricInterference, right, left));
    ShapesAppend(ShapeOf, a + b, c);
    ShapesAppend(ShapeOf, a, b);
  }

  lemma ReportSymmetric(severity: Severity, items: seq<Item>)
    requires AllOf(Experiment, items)
    ensures Symmetric(Report(severity), ShapeOf, items)
  {
    forall x, y | x in items && y in items
      ensures Shapes(ShapeOf, Report(severity)(x, y)) == Shapes(ShapeOf, Report(severity)(y, x))
    {
      BetweenSymmetric(severity, x, y);
    }
  }

  /** Reordering either list changes no finding beyond which of its two items is written first; so no count changes. */
  lemma OrderIrrelevant(severity: Severity, s: seq<Item>, t: seq<Item>, r: seq<Item>, q: seq<Item>)
    requires AllOf(Experiment, s)
    requires multiset(s) == multiset(t) && multiset(r) == multiset(q)
    ensures Shapes(ShapeOf, Reported(severity, s, r)) == Shapes(ShapeOf, Reported(severity, t, q))
    ensures |Reported(severity, s, r)| == |Reported(severity, t, q)|
  {
    var f := Report(severity);
    ReportSymmetric(severity, s);
    PairsReordered(f, ShapeOf, s, t);
    CrossReordered(f, ShapeOf, s, t, r, q);
    ShapesAppend(ShapeOf, Pairs(f, s), Cross(f, s, r));
    ShapesAppend(ShapeOf, Pairs(f, t), Cross(f, t, q));
    assert |Shapes(ShapeOf, Reported(severity, s, r))| == |Reported(severity, s, r)|;
    assert |Shapes(ShapeOf, Reported(severity, t, q))| == |Reported(severity, t, q)|;
  }

  // ---------------------------------------------------------------- the whole evaluation

  lemma {:induction false} FilterReordered(keep: Item -> bool, s: seq<Item>, x: Item)
    ensures multiset(Filter(keep, s))[x] == if keep(x) then multiset(s)[x] else 0
  {
    if s != [] {
      assert s == [s[0]] + s[1..];
      FilterReordered(keep, s[1..], x);
    }
  }

  lemma ActiveReordered(s: seq<Item>, t: seq<Item>, candidate: Option<Item>, kind: Kind)
    requires multiset(s) == multiset(t)
    ensures multiset(ActiveItems(s, candidate, kind)) == multiset(ActiveItems(t, candidate, kind))
  {
    FilterMultiset(Visible, s, t);
    FilterMultiset(Active, Filter(Visible, s), Filter(Visible, t));
    if candidate.Some? {
      FilterMultiset(NotSame(candidate.value.id), Filter(Active, Filter(Visible, s)), Filter(Active, Filter(Visible, t)));
    }
  }

  lemma FilterMultiset(keep: Item -> bool, s: seq<Item>, t: seq<Item>)
    requires multiset(s) == multiset(t)
    ensures multiset(Filter(keep, s)) == multiset(Filter(keep, t))
  {
    forall x ensures multiset(Filter(keep, s))[x] == multiset(Filter(keep, t))[x] {
      FilterReordered(keep, s, x);
      FilterReordered(keep, t, x);
    }
  }

  /** The isolation status and both counts are the same for every order of the stored experiments and rollouts. */
  lemma IsolationOrderIndependent(s: seq<Item>, t: seq<Item>, r: seq<Item>, q: seq<Item>, candidate: Option<Item>)
    requires AllOf(Experiment, s)
    requires multiset(s) == multiset(t) && multiset(r) == multiset(q)
    ensures
      var es, rs := ActiveItems(s, candidate, Experiment), ActiveItems(r, candidate, Rollout);
      var fs, qs := ActiveItems(t, candidate, Experiment), ActiveItems(q, candidate, Rollout);
      && |Reported(Blocking, es, rs)| == |Reported(Blocking, fs, qs)|
      && |Reported(Warning, es, rs)| == |Reported(Warning, fs, qs)|
  {
    ActiveReordered(s, t, candidate, Experiment);
    ActiveReordered(r, q, candidate, Rollout);
    var es, rs := ActiveItems(s, candidate, Experiment), ActiveItems(r, candidate, Rollout);
    var fs, qs := ActiveItems(t, candidate, Experiment), ActiveItems(q, candidate, Rollout);
    forall i | 0 <= i < |es| ensures es[i].kind == Experiment {
      assert es[i] in es;
    }
    OrderIrrelevant(Blocking, es, fs, rs, qs);
    OrderIrrelevant(Warning, es, fs, rs, qs);
  }

  lemma SidesOfPair(severity: Severity, left: Item, right: Item, f: Finding)
    requires f in Between(severity, left, right)
    ensures (f.left == left && f.right == right) || (f.left == right && f.right == left)
  {
    if severity == Blocking {
      BlockingBetween(left, right);
    } else {
      WarningSides(left, right, f);
    }
  }

  lemma WarningSides(left: Item, right: Item, f: Finding)
    requires f in Between(Warning, left, right)
    ensures (f.left == left && f.right == right) || (f.left == right && f.right == left)
  {
  }

  lemma OtherIdsBefore(stored: seq<Item>, candidate: Item, i: nat)
    requires Active(candidate)
    requires i < |ActiveItems(stored, Some(candidate), candidate.kind)| - 1
    ensures ActiveItems(stored, Some(candidate), candidate.kind)[i].id != candidate.id
  {
    var others := Filter(NotSame(candidate.id), Filter(Active, Filter(Visible, stored)));
    assert others[i] in others;
  }

  /** Only the candidate itself carries its id in the active list, so no finding sets it against its stored version. */
  lemma OwnVersionReplaced(severity: Severity, stored: seq<Item>, candidate: Item, f: Finding)
    requires candidate.kind == Experiment && Active(candidate)
    requires f in Pairs(Report(severity), ActiveItems(stored, Some(candidate), Experiment))
    ensures !(f.left.id == candidate.id && f.right.id == candidate.id)
  {
    var items := ActiveItems(stored, Some(candidate), Experiment);
    PairsOrigin(Report(severity), items, f);
    var i, j :| 0 <= i < j < |items| && f in Report(severity)(items[i], items[j]);
    SidesOfPair(severity, items[i], items[j], f);
    OtherIdsBefore(stored, candidate, i);
  }

  /** Whatever is stored under the candidate's id has no influence on the evaluation. */
  lemma StoredVersionIgnored(stored: seq<Item>, candidate: Item, kind: Kind)
    requires candidate.kind == kind && Active(candidate)
    ensures ActiveItems(stored, Some(candidate), kind) == ActiveItems(Filter(NotSame(candidate.id), stored), Some(candidate), kind)
  {
    FiltersCommute(Visible, NotSame(candidate.id), stored);
    FiltersCommute(Active, NotSame(candidate.id), Filter(Visible, stored));
    FilterTwice(NotSame(candidate.id), Filter(Active, Filter(Visible, stored)));
  }

  lemma {:induction false} FiltersCommute(p: Item -> bool, q: Item -> bool, s: seq<Item>)
    ensures Filter(p, Filter(q, s)) == Filter(q, Filter(p, s))
  {
    if s != [] {
      FiltersCommute(p, q, s[1..]);
    }
  }

  lemma {:induction false} FilterTwice(p: Item -> bool, s: seq<Item>)
    ensures Filter(p, Filter(p, s)) == Filter(p, s)
  {
    if s != [] {
      FilterTwice(p, s[1..]);
    }
  }
}
