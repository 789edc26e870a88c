/** Choosing a winner from finished comparisons: the second half of evaluate_experiment_result. */
module WinnerSelection {
  import opened Numerics
  import opened Prelude
  import opened ExperimentMetrics

  /** The two numbers a candidate is measured against. */
  datatype Criteria = Criteria(minimumEffect: real, winnerConfidence: real)

  datatype Comparison =
    | NotAvailable
    | Compared(
        improvement: real,
        guardrailsOk: bool,
        significant: bool,
        practical: bool,
        adjustedSignificant: bool,
        confidence: real,
        sampleSize: int,
        requiredSample: Option<int>,
        detectableEffect: Option<real>,
        adjusted: Option<Bounds>)

  datatype Entry = Entry(id: string, comparison: Comparison)

  datatype Candidate = Candidate(id: string, improvement: real)

  datatype Outcome =
    | InsufficientData
    | MetricUnavailable
    | ControlPreferred
    | Inconclusive
    | UnsafeVariant
    | MultipleEquivalent
    | VariantPreferred(winner: string)

  datatype Evaluation = Evaluation(
    outcome: Outcome,
    insufficientGroups: seq<string>,
    equivalentVariants: seq<string>,
    unsafeVariants: seq<string>,
    comparisons: seq<Entry>,
    decisionConfidence: real)

  predicate Unsafe(e: Entry) {
    e.comparison.Compared? && !e.comparison.guardrailsOk
  }

  predicate Qualifies(k: Criteria, c: Comparison) {
    && c.Compared? && c.guardrailsOk
    && c.improvement >= k.minimumEffect
    && c.significant && c.practical && c.adjustedSignificant
    && c.confidence >= k.winnerConfidence
  }

  predicate NoisyPositive(e: Entry) {
    e.comparison.Compared? && e.comparison.guardrailsOk && e.comparison.improvement > 0.0
  }

  function EntryId(e: Entry): string {
    e.id
  }

  function CandidateId(c: Candidate): string {
    c.id
  }

  function Candidates(k: Criteria, entries: seq<Entry>): (r: seq<Candidate>)
    ensures forall c :: c in r ==> exists e :: e in entries && Qualifies(k, e.comparison) && c == Candidate(e.id, e.comparison.improvement)
    ensures forall e :: e in entries && Qualifies(k, e.comparison) ==> Candidate(e.id, e.comparison.improvement) in r
  {
    if entries == [] then []
    else
      var rest := Candidates(k, entries[1..]);
      var e := entries[0];
      if Qualifies(k, e.comparison) then [Candidate(e.id, e.comparison.improvement)] + rest else rest
  }

  /** Insert into a list sorted by falling improvement, before any equal element: the order Python's stable sort keeps. */
  function Insert(c: Candidate, sorted: seq<Candidate>): seq<Candidate> {
    if sorted == [] then [c]
    else if c.improvement >= sorted[0].improvement then [c] + sorted
    else [sorted[0]] + Insert(c, sorted[1..])
  }

  ghost predicate Falling(cs: seq<Candidate>) {
    forall i, j :: 0 <= i <= j < |cs| ==> cs[i].improvement >= cs[j].improvement
  }

  function SortByImprovement(cs: seq<Candidate>): (r: seq<Candidate>)
    ensures |r| == |cs|
    ensures multiset(r) == multiset(cs)
    ensures Falling(r)
  {
    if cs == [] then []
    else
      assert cs == [cs[0]] + cs[1..];
      var rest := SortByImprovement(cs[1..]);
      InsertBag(cs[0], rest);
      InsertFalls(cs[0], rest);
      Insert(cs[0], rest)
  }

  lemma {:induction false} InsertBag(c: Candidate, sorted: seq<Candidate>)
    ensures |Insert(c, sorted)| == |sorted| + 1
    ensures multiset(Insert(c, sorted)) == multiset(sorted) + multiset{c}
  {
    if sorted != [] && c.improvement < sorted[0].improvement {
      InsertBag(c, sorted[1..]);
      assert sorted == [sorted[0]] + sorted[1..];
    }
  }

  lemma FallingCons(a: Candidate, rest: seq<Candidate>)
    requires Falling(rest) && (rest != [] ==> a.improvement >= rest[0].improvement)
    ensures Falling([a] + rest)
  {
    var r := [a] + rest;
    assert forall i :: 0 < i < |r| ==> r[i] == rest[i - 1];
  }

  lemma {:induction false} InsertFalls(c: Candidate, sorted: seq<Candidate>)
    requires Falling(sorted)
    ensures Falling(Insert(c, sorted))
    ensures Insert(c, sorted) != [] && (Insert(c, sorted)[0] == c || (sorted != [] && Insert(c, sorted)[0] == sorted[0]))
  {
    if sorted != [] && c.improvement < sorted[0].improvement {
      InsertFalls(c, sorted[1..]);
      FallingCons(sorted[0], Insert(c, sorted[1..]));
    } else {
      FallingCons(c, sorted);
    }
  }

  function Within(best: Candidate, threshold: real): Candidate -> bool {
    (c: Candidate) => Abs(best.improvement - c.improvement) < threshold
  }

  function BestConfidence(entries: seq<Entry>): (r: real)
    ensures r >= 0.0
    ensures forall e :: e in entries && e.comparison.Compared? ==> r >= e.comparison.confidence
    ensures r == 0.0 || exists e :: e in entries && e.comparison.Compared? && r == e.comparison.confidence
  {
    if entries == [] then 0.0
    else
      var rest := BestConfidence(entries[1..]);
      var c := entries[0].comparison;
      if c.Compared? && c.confidence > rest then c.confidence else rest
  }

  function Judge(k: Criteria, entries: seq<Entry>): Evaluation {
    var unsafe := Filter(Unsafe, entries);
    var candidates := Candidates(k, entries);
    var confidence := Round4(BestConfidence(entries));
    if candidates == [] then
      var outcome :=
        if unsafe != [] && |unsafe| == |entries| then UnsafeVariant
        else if Filter(NoisyPositive, entries) != [] then Inconclusive
        else ControlPreferred;
      Evaluation(outcome, [], [], Map(EntryId, unsafe), entries, confidence)
    else
      var sorted := SortByImprovement(candidates);
      var best := sorted[0];
      var equivalent := Filter(Within(best, k.minimumEffect), sorted[1..]);
      if equivalent != [] then
        Evaluation(MultipleEquivalent, [], [best.id] + Map(CandidateId, equivalent), Map(EntryId, unsafe), entries, confidence)
      else
        Evaluation(VariantPreferred(best.id), [], [], Map(EntryId, unsafe), entries, confidence)
  }

  // ---------------------------------------------------------------- what selection promises

  /** e beats every other qualifying entry by at least the minimum effect. */
  ghost predicate ClearlyBest(k: Criteria, entries: set<Entry>, e: Entry) {
    && e in entries && Qualifies(k, e.comparison)
    && (forall o :: o in entries && o != e && Qualifies(k, o.comparison)
          ==> e.comparison.improvement - o.comparison.improvement >= k.minimumEffect)
  }

  /** The outcome as a relation on the set of comparisons: no list order is left in it. */
  ghost predicate ReferenceOutcome(k: Criteria, entries: set<Entry>, o: Outcome) {
    if forall e :: e in entries ==> !Qualifies(k, e.comparison) then
      if entries != {} && forall e :: e in entries ==> Unsafe(e) then o == UnsafeVariant
      else if exists e :: e in entries && NoisyPositive(e) then o == Inconclusive
      else o == ControlPreferred
    else
      match o
      case VariantPreferred(w) => exists e: Entry :: e.id == w && ClearlyBest(k, entries, e)
      case MultipleEquivalent => forall e: Entry :: !ClearlyBest(k, entries, e)
      case _ => false
  }

  ghost predicate DistinctIds(entries: seq<Entry>) {
    forall i, j :: 0 <= i < j < |entries| ==> entries[i].id != entries[j].id
  }

  ghost predicate DistinctCandidates(cs: seq<Candidate>) {
    forall i, j :: 0 <= i < j < |cs| ==> cs[i].id != cs[j].id
  }

  lemma {:induction false} CandidateIdsDistinct(k: Criteria, entries: seq<Entry>)
    requires DistinctIds(entries)
    ensures DistinctCandidates(Candidates(k, entries))
  {
    if entries != [] {
      CandidateIdsDistinct(k, entries[1..]);
      var rest := Candidates(k, entries[1..]);
      forall j | 0 <= j < |rest| ensures rest[j].id != entries[0].id {
        assert rest[j] in rest;
        var e :| e in entries[1..] && Qualifies(k, e.comparison) && rest[j] == Candidate(e.id, e.comparison.improvement);
      }
    }
  }

  lemma SameElements<T>(a: seq<T>, b: seq<T>)
    requires multiset(a) == multiset(b)
    ensures forall x :: x in a <==> x in b
  {
    assert forall x :: x in a <==> x in multiset(a);
    assert forall x :: x in b <==> x in multiset(b);
  }

  lemma {:induction false} OccursOnce(cs: seq<Candidate>, c: Candidate)
    requires DistinctCandidates(cs)
    ensures multiset(cs)[c] <= 1
  {
    if cs != [] {
      assert cs == [cs[0]] + cs[1..];
      OccursOnce(cs[1..], c);
      if c == cs[0] {
        assert c !in cs[1..];
        assert c !in multiset(cs[1..]);
      }
    }
  }

  /** The best candidate and the others split the candidates. */
  lemma SortedSplit(cs: seq<Candidate>)
    requires cs != [] && DistinctCandidates(cs)
    ensures
      var sorted := SortByImprovement(cs);
      && sorted[0] in cs
      && (forall c :: c in sorted[1..] <==> c in cs && c != sorted[0])
      && (forall c :: c in cs ==> sorted[0].improvement >= c.improvement)
  {
    var sorted := SortByImprovement(cs);
    SameElements(sorted, cs);
    assert sorted == [sorted[0]] + sorted[1..];
    OccursOnce(cs, sorted[0]);
    assert multiset(sorted)[sorted[0]] == 1 + multiset(sorted[1..])[sorted[0]];
    assert sorted[0] !in sorted[1..];
  }

  /** After the sort the first candidate is the clear winner exactly when nothing behind it is within the threshold. */
  lemma BestOfSorted(cs: seq<Candidate>, threshold: real)
    requires cs != [] && threshold > 0.0 && DistinctCandidates(cs)
    ensures
      var sorted := SortByImprovement(cs);
      (Filter(Within(sorted[0], threshold), sorted[1..]) == []) ==
      (forall c :: c in cs && c != sorted[0] ==> sorted[0].improvement - c.improvement >= threshold)
  {
    SortedSplit(cs);
    var sorted := SortByImprovement(cs);
    NoneWithin(sorted[0], sorted[1..], threshold);
  }

  lemma NoneWithin(best: Candidate, rest: seq<Candidate>, threshold: real)
    requires forall c :: c in rest ==> best.improvement >= c.improvement
    ensures (Filter(Within(best, threshold), rest) == []) == (forall c :: c in rest ==> best.improvement - c.improvement >= threshold)
  {
    FilterEmpty(Within(best, threshold), rest);
  }

  lemma NoCandidateReference(k: Criteria, entries: seq<Entry>)
    requires Candidates(k, entries) == []
    ensures ReferenceOutcome(k, ToSet(entries), Judge(k, entries).outcome)
  {
    assert forall e :: e in entries ==> !Qualifies(k, e.comparison);
    FilterWhole(Unsafe, entries);
    var noisy := Filter(NoisyPositive, entries);
    if noisy != [] { assert noisy[0] in noisy; }
    if entries != [] { assert entries[0] in ToSet(entries); }
  }

  lemma CandidateReference(k: Criteria, entries: seq<Entry>)
    requires DistinctIds(entries) && k.minimumEffect > 0.0
    requires Candidates(k, entries) != []
    ensures ReferenceOutcome(k, ToSet(entries), Judge(k, entries).outcome)
  {
    var cs := Candidates(k, entries);
    CandidateIdsDistinct(k, entries);
    SortedSplit(cs);
    BestOfSorted(cs, k.minimumEffect);
    var best := SortByImprovement(cs)[0];
    var w :| w in entries && Qualifies(k, w.comparison) && best == Candidate(w.id, w.comparison.improvement);
    if forall c :: c in cs && c != best ==> best.improvement - c.improvement >= k.minimumEffect {
      WinnerIsClear(k, entries, cs, best, w);
    } else {
      var close :| close in cs && close != best && best.improvement - close.improvement < k.minimumEffect;
      NobodyIsClear(k, entries, cs, best, close);
    }
  }

  lemma WinnerIsClear(k: Criteria, entries: seq<Entry>, cs: seq<Candidate>, best: Candidate, w: Entry)
    requires DistinctIds(entries) && cs == Candidates(k, entries)
    requires w in entries && Qualifies(k, w.comparison) && best == Candidate(w.id, w.comparison.improvement)
    requires forall c :: c in cs && c != best ==> best.improvement - c.improvement >= k.minimumEffect
    ensures ClearlyBest(k, ToSet(entries), w)
  {
    forall o | o in entries && o != w && Qualifies(k, o.comparison)
      ensures w.comparison.improvement - o.comparison.improvement >= k.minimumEffect
    {
      var c := Candidate(o.id, o.comparison.improvement);
      assert c in cs;
      IdsIdentify(entries, o, w);
    }
  }

  lemma IdsIdentify(entries: seq<Entry>, a: Entry, b: Entry)
    requires DistinctIds(entries) && a in entries && b in entries
    ensures a.id == b.id ==> a == b
  {
  }

  lemma NobodyIsClear(k: Criteria, entries: seq<Entry>, cs: seq<Candidate>, best: Candidate, close: Candidate)
    requires k.minimumEffect > 0.0 && cs == Candidates(k, entries)
    requires best in cs && close in cs && close != best
    requires forall c :: c in cs ==> best.improvement >= c.improvement
    requires best.improvement - close.improvement < k.minimumEffect
    ensures forall e: Entry :: !ClearlyBest(k, ToSet(entries), e)
  {
    var b :| b in entries && Qualifies(k, b.comparison) && best == Candidate(b.id, b.comparison.improvement);
    var u :| u in entries && Qualifies(k, u.comparison) && close == Candidate(u.id, u.comparison.improvement);
    forall e: Entry ensures !ClearlyBest(k, ToSet(entries), e) {
      if e in entries && Qualifies(k, e.comparison) {
        assert Candidate(e.id, e.comparison.improvement) in cs;
        if e != b {
          assert b in ToSet(entries);
        } else {
          assert u in ToSet(entries);
        }
      }
    }
  }

  /** Whatever the code selects agrees with the order-free reference. */
  lemma JudgeMeetsReference(k: Criteria, entries: seq<Entry>)
    requires DistinctIds(entries) && k.minimumEffect > 0.0
    ensures ReferenceOutcome(k, ToSet(entries), Judge(k, entries).outcome)
  {
    if Candidates(k, entries) == [] {
      NoCandidateReference(k, entries);
    } else {
      CandidateReference(k, entries);
    }
  }

  /** The reference fixes the outcome: at most one entry can be clearly best. */
  lemma ReferenceFunctional(k: Criteria, entries: set<Entry>, o0: Outcome, o1: Outcome)
    requires k.minimumEffect > 0.0
    requires ReferenceOutcome(k, entries, o0) && ReferenceOutcome(k, entries, o1)
    ensures o0 == o1
  {
    if o0.VariantPreferred? && o1.VariantPreferred? {
      var e0: Entry :| e0.id == o0.winner && ClearlyBest(k, entries, e0);
      var e1: Entry :| e1.id == o1.winner && ClearlyBest(k, entries, e1);
      assert e0 == e1;
    }
  }

  /** The reported confidence of the decision is that of the best comparison, whatever the order. */
  lemma ConfidenceFunctional(a: seq<Entry>, b: seq<Entry>)
    requires ToSet(a) == ToSet(b)
    ensures BestConfidence(a) == BestConfidence(b)
  {
    assert forall e :: e in a <==> e in ToSet(a);
    assert forall e :: e in b <==> e in ToSet(b);
  }

  lemma OutcomeOrderIndependent(k: Criteria, a: seq<Entry>, b: seq<Entry>)
    requires DistinctIds(a) && DistinctIds(b) && k.minimumEffect > 0.0
    requires ToSet(a) == ToSet(b)
    ensures Judge(k, a).outcome == Judge(k, b).outcome
  {
    var x, y := Judge(k, a).outcome, Judge(k, b).outcome;
    assert ReferenceOutcome(k, ToSet(a), x) by { JudgeMeetsReference(k, a); }
    assert ReferenceOutcome(k, ToSet(a), y) by { JudgeMeetsReference(k, b); }
    ReferenceFunctional(k, ToSet(a), x, y);
  }

  lemma JudgedConfidence(k: Criteria, entries: seq<Entry>)
    ensures Judge(k, entries).decisionConfidence == Round4(BestConfidence(entries))
  {
  }

  /** Result kind, winner and decision confidence are the same for every ordering of the comparisons. */
  lemma OrderIndependent(k: Criteria, a: seq<Entry>, b: seq<Entry>)
    requires DistinctIds(a) && DistinctIds(b) && k.minimumEffect > 0.0
    requires ToSet(a) == ToSet(b)
    ensures Judge(k, a).outcome == Judge(k, b).outcome
    ensures Judge(k, a).decisionConfidence == Judge(k, b).decisionConfidence
  {
    OutcomeOrderIndependent(k, a, b);
    ConfidenceFunctional(a, b);
    JudgedConfidence(k, a);
    JudgedConfidence(k, b);
  }

  /** A preferred winner is one of the comparisons, and clearly the best of them. */
  lemma PreferredEntry(k: Criteria, entries: seq<Entry>, w: string) returns (i: nat)
    requires DistinctIds(entries) && k.minimumEffect > 0.0
    requires Judge(k, entries).outcome == VariantPreferred(w)
    ensures i < |entries| && entries[i].id == w && ClearlyBest(k, ToSet(entries), entries[i])
  {
    JudgeMeetsReference(k, entries);
    var e: Entry :| e.id == w && ClearlyBest(k, ToSet(entries), e);
    i :| 0 <= i < |entries| && entries[i] == e;
  }

  // ---------------------------------------------------------------- the passes of the source

  lemma {:induction false} CandidatesAppend(k: Criteria, entries: seq<Entry>, e: Entry)
    ensures Candidates(k, entries + [e])
      == Candidates(k, entries) + if Qualifies(k, e.comparison) then [Candidate(e.id, e.comparison.improvement)] else []
  {
    if entries == [] {
      assert entries + [e] == [e];
      assert Candidates(k, [e][1..]) == [];
    } else {
      assert (entries + [e])[1..] == entries[1..] + [e];
      CandidatesAppend(k, entries[1..], e);
    }
  }

  lemma {:induction false} BestConfidenceAppend(entries: seq<Entry>, e: Entry)
    ensures
      var best, c := BestConfidence(entries), e.comparison;
      BestConfidence(entries + [e]) == if c.Compared? && c.confidence > best then c.confidence else best
  {
    if entries == [] {
      assert entries + [e] == [e];
      assert BestConfidence([e][1..]) == 0.0;
    } else {
      assert (entries + [e])[1..] == entries[1..] + [e];
      BestConfidenceAppend(entries[1..], e);
    }
  }

  /** The candidate pass over the comparisons. */
  method CollectCandidates(k: Criteria, comparisons: seq<Entry>) returns (candidates: seq<Candidate>)
    ensures candidates == Candidates(k, comparisons)
  {
    candidates := [];
    var i := 0;
    while i < |comparisons|
      invariant 0 <= i <= |comparisons|
      invariant candidates == Candidates(k, comparisons[..i])
    {
      var e := comparisons[i];
      assert comparisons[..i + 1] == comparisons[..i] + [e];
      CandidatesAppend(k, comparisons[..i], e);
      if Qualifies(k, e.comparison) {
        candidates := candidates + [Candidate(e.id, e.comparison.improvement)];
      }
      i := i + 1;
    }
    assert comparisons[..|comparisons|] == comparisons;
  }

  /** The pass for the highest decision confidence, zero when there is none. */
  method HighestConfidence(comparisons: seq<Entry>) returns (best: real)
    ensures best == BestConfidence(comparisons)
  {
    best := 0.0;
    var i := 0;
    while i < |comparisons|
      invariant 0 <= i <= |comparisons|
      invariant best == BestConfidence(comparisons[..i])
    {
      var c := comparisons[i].comparison;
      assert comparisons[..i + 1] == comparisons[..i] + [comparisons[i]];
      BestConfidenceAppend(comparisons[..i], comparisons[i]);
      if c.Compared? && c.confidence > best {
        best := c.confidence;
      }
      i := i + 1;
    }
    assert comparisons[..|comparisons|] == comparisons;
  }

  method AnyNoisyPositive(comparisons: seq<Entry>) returns (found: bool)
    ensures found <==> Filter(NoisyPositive, comparisons) != []
  {
    FilterEmpty(NoisyPositive, comparisons);
    var i := 0;
    while i < |comparisons|
      invariant 0 <= i <= |comparisons|
      invariant forall j :: 0 <= j < i ==> !NoisyPositive(comparisons[j])
    {
      if NoisyPositive(comparisons[i]) {
        return true;
      }
      i := i + 1;
    }
    return false;
  }

  /** The pass for the candidates within the threshold of the best one. */
  method CollectEquivalent(best: Candidate, others: seq<Candidate>, threshold: real) returns (equivalent: seq<Candidate>)
    ensures equivalent == Filter(Within(best, threshold), others)
  {
    equivalent := [];
    var i := 0;
    while i < |others|
      invariant 0 <= i <= |others|
      invariant equivalent == Filter(Within(best, threshold), others[..i])
    {
      assert others[..i + 1] == others[..i] + [others[i]];
      FilterAppend(Within(best, threshold), others[..i], others[i]);
      if Abs(best.improvement - others[i].improvement) < threshold {
        equivalent := equivalent + [others[i]];
      }
      i := i + 1;
    }
    assert others[..|others|] == others;
  }

  /** The selection over finished comparisons: its result kind meets the order-free reference. */
  method Select(k: Criteria, comparisons: seq<Entry>, unsafe: seq<Entry>) returns (r: Evaluation)
    requires unsafe == Filter(Unsafe, comparisons)
    ensures r == Judge(k, comparisons)
    ensures DistinctIds(comparisons) && k.minimumEffect > 0.0 ==> ReferenceOutcome(k, ToSet(comparisons), r.outcome)
  {
    if DistinctIds(comparisons) && k.minimumEffect > 0.0 {
      JudgeMeetsReference(k, comparisons);
    }
    var candidates := CollectCandidates(k, comparisons);
    var best := HighestConfidence(comparisons);
    var confidence := Round4(best);
    if candidates == [] {
      var noisy := AnyNoisyPositive(comparisons);
      var outcome :=
        if unsafe != [] && |unsafe| == |comparisons| then UnsafeVariant else if noisy then Inconclusive else ControlPreferred;
      return Evaluation(outcome, [], [], Map(EntryId, unsafe), comparisons, confidence);
    }
    var sorted := SortByImprovement(candidates);
    var equivalent := CollectEquivalent(sorted[0], sorted[1..], k.minimumEffect);
    if equivalent != [] {
      return Evaluation(MultipleEquivalent, [], [sorted[0].id] + Map(CandidateId, equivalent), Map(EntryId, unsafe), comparisons, confidence);
    }
    return Evaluation(VariantPreferred(sorted[0].id), [], [], Map(EntryId, unsafe), comparisons, confidence);
  }
}
