/** Catching up with a CI run accepted outside the workflow (graph/ci_reconciliation.py, graph/persistence_service.py). */
module CiReconciliation {
  import opened Prelude
  import opened Text
  import opened WorkflowState
  import opened CiEligibility

  // ---------------------------------------------------------------- reading a test summary

  predicate WordChar(c: char) {
    'a' <= c <= 'z' || 'A' <= c <= 'Z' || '0' <= c <= '9' || c == '_'
  }

  predicate Digit(c: char) {
    '0' <= c <= '9'
  }

  predicate WordStart(s: string, i: nat)
    requires i <= |s|
  {
    i == 0 || !WordChar(s[i - 1])
  }

  function AfterDigits(s: string, i: nat): (k: nat)
    requires i <= |s|
    ensures i <= k <= |s|
    decreases |s| - i
  {
    if i < |s| && Digit(s[i]) then AfterDigits(s, i + 1) else i
  }

  function AfterSpaces(s: string, i: nat): (k: nat)
    requires i <= |s|
    ensures i <= k <= |s|
    decreases |s| - i
  {
    if i < |s| && Space(s[i]) then AfterSpaces(s, i + 1) else i
  }

  /** The word stands at i, in any case, and ends there. */
  predicate WordAt(s: string, i: nat, word: string) {
    && i + |word| <= |s|
    && Lower(s[i..i + |word|]) == word
    && (i + |word| == |s| || !WordChar(s[i + |word|]))
  }

  /** A positive number stands at i, then blanks, then the word. */
  predicate CountAt(s: string, i: nat, word: string)
    requires i < |s|
  {
    var digits := AfterDigits(s, i);
    var blanks := AfterSpaces(s, digits);
    WordStart(s, i) && '1' <= s[i] <= '9' && digits < blanks && WordAt(s, blanks, word)
  }

  predicate Counts(s: string, word: string) {
    exists i :: 0 <= i < |s| && CountAt(s, i, word)
  }

  predicate CollectionError(s: string) {
    exists i: nat :: i + |"collection"| < |s| && CollectionErrorAt(s, i)
  }

  predicate CollectionErrorAt(s: string, i: nat)
    requires i + |"collection"| < |s|
  {
    var blanks := AfterSpaces(s, i + |"collection"|);
    WordStart(s, i) && Lower(s[i..i + |"collection"|]) == "collection" && i + |"collection"| < blanks && WordAt(s, blanks, "error")
  }

  /** Some tests passed, and the summary mentions no failure, error or collection error. */
  predicate PassingSummary(summary: Option<string>) {
    && summary.Some?
    && Counts(summary.value, "passed")
    && !(Counts(summary.value, "failed") || Counts(summary.value, "error") || Counts(summary.value, "errors"))
    && !CollectionError(summary.value)
  }

  // ---------------------------------------------------------------- the reconciliation

  datatype Reconciliation = NotApplicable | Reconciled(state: Workflow, clearsInterrupt: bool)

  predicate AcceptedDecision(d: Option<Decision>) {
    d == Some(Accepted) || d == Some(AcceptedWithWarnings)
  }

  predicate ExactCommit(run: Run, e: Eligibility, head: Option<string>) {
    Truthy(head).Some? && run.validated == head && e.sourceCommit == head && e.targetCommit == head && e.commitMatch
  }

  predicate AcceptedRun(run: Run, e: Eligibility) {
    run.status.PassedRun? && AcceptedDecision(run.decision) && e.eligible
  }

  /** A test approval still waiting on behalf of a CI repair. */
  predicate StaleRepairInterrupt(w: Workflow) {
    && w.pending.operation == Some(RunTests) && w.pending.toolMatches && w.pending.status.Waiting?
    && (w.repair.state.Pending? || w.repair.state.Running?)
    && Truthy(w.repair.sourceRun).Some?
    && (w.supervisorChoseRepair || w.failure.stage == Some(CiStage))
  }

  function WithCi(w: Workflow, run: Run, e: Eligibility): Workflow {
    w.(ci := Ci(CiPassed, run.id, Some(run.status), run.decision, run.validated, true, Some(e), None, run.gates))
  }

  function RepairCleared(w: Workflow): Workflow {
    w.(repair := w.repair.(state := NotRequired, sourceRun := None, sourceCommit := None, targetCommit := None),
       pending := PendingApproval(None, false, NoApproval),
       supervisorChoseRepair := false,
       failure := if w.failure.stage == Some(CiStage) then Failure(None, None, None) else w.failure,
       tests := if PassingSummary(w.tests.finalSummary)
                then w.tests.(executed := true, passed := true, resultPassed := true, resultSummary := w.tests.finalSummary)
                else w.tests,
       terminal := None)
  }

  function Reconcile(w: Workflow, run: Run, e: Eligibility, head: Option<string>): Reconciliation {
    if !AcceptedRun(run, e) || !ExactCommit(run, e, head) then NotApplicable
    else if StaleRepairInterrupt(w) then Reconciled(RepairCleared(WithCi(w, run, e)), true)
    else Reconciled(WithCi(w, run, e), false)
  }

  /** The updates grow step by step: the CI fields, then what a stale interrupt left behind. */
  method BuildCiSuccessReconciliation(w: Workflow, run: Run, e: Eligibility, head: Option<string>) returns (r: Reconciliation)
    ensures r == Reconcile(w, run, e, head)
  {
    if !AcceptedRun(run, e) || !ExactCommit(run, e, head) {
      return NotApplicable;
    }
    var updated := WithCi(w, run, e);
    var stale := StaleRepairInterrupt(w);
    if stale {
      updated := updated.(
        repair := w.repair.(state := NotRequired, sourceRun := None, sourceCommit := None, targetCommit := None),
        pending := PendingApproval(None, false, NoApproval),
        supervisorChoseRepair := false,
        terminal := None);
      if w.failure.stage == Some(CiStage) {
        updated := updated.(failure := Failure(None, None, None));
      }
      if PassingSummary(w.tests.finalSummary) {
        updated := updated.(tests := w.tests.(
          executed := true, passed := true, resultPassed := true, resultSummary := w.tests.finalSummary));
      }
    }
    return Reconciled(updated, stale);
  }

  /** Reconciling settles: the same run then asks only for what is already there, and finds no stale interrupt. */
  lemma ReconcileFixpoint(w: Workflow, run: Run, e: Eligibility, head: Option<string>)
    requires Reconcile(w, run, e, head).Reconciled?
    ensures
      var settled := Reconcile(w, run, e, head).state;
      Reconcile(settled, run, e, head) == Reconciled(settled, false)
  {
  }

  /** An approval that is not the stale one keeps its fields; tests pass anew only on a passing recorded summary. */
  lemma OnlyStaleInterruptCleared(w: Workflow, run: Run, e: Eligibility, head: Option<string>)
    requires Reconcile(w, run, e, head).Reconciled?
    ensures
      var r := Reconcile(w, run, e, head);
      && (r.clearsInterrupt <==> StaleRepairInterrupt(w))
      && (r.state.pending != w.pending ==> StaleRepairInterrupt(w))
      && (r.state.tests.passed && !w.tests.passed ==> StaleRepairInterrupt(w) && PassingSummary(w.tests.finalSummary))
      && (!r.state.tests.passed ==> !w.tests.passed)
      && r.state.commits == w.commits
  {
  }

  /** After an applied reconciliation promotion is exact if and only if the reconciled head is the current candidate. */
  lemma ReconciledExactIff(w: Workflow, run: Run, e: Eligibility, head: Option<string>)
    requires Reconcile(w, run, e, head).Reconciled?
    ensures Exact(Reconcile(w, run, e, head).state) <==> head == Candidate(w.commits)
  {
    assert Reconcile(w, run, e, head).state.ci.validated == head;
  }

  // ---------------------------------------------------------------- the service around it

  datatype Producer = TestingRepairNode | CiPipelineNode

  /** What the service does with the graph: nothing, or continue it from a state, written as some node's output or not at all. */
  datatype ServiceAction = LeaveAlone | Continue(state: Workflow, writtenAs: Option<Producer>)

  /** The head was already accepted, whatever else the run would write. */
  predicate AcceptedCurrentHead(w: Workflow, head: Option<string>) {
    && Truthy(head).Some? && w.ci.validated == head
    && w.ci.status == Some(PassedRun) && AcceptedDecision(w.ci.decision) && w.ci.eligible
  }

  function ReconcileSuccessfulRun(w: Workflow, interrupted: bool, atSupervisor: bool,
                                  run: Run, e: Eligibility, head: Option<string>): ServiceAction {
    var r := Reconcile(w, run, e, head);
    if r.NotApplicable? then LeaveAlone
    else if interrupted && !r.clearsInterrupt then LeaveAlone
    else
      var settled := !interrupted && ((!r.clearsInterrupt && AcceptedCurrentHead(w, head)) || r.state == w);
      if settled && !atSupervisor then LeaveAlone
      else if settled then Continue(w, None)
      else Continue(r.state, Some(if r.clearsInterrupt then TestingRepairNode else CiPipelineNode))
  }

  /** The service consumes a waiting interrupt only when it is the stale CI-repair one. */
  lemma OtherInterruptsSurvive(w: Workflow, atSupervisor: bool, run: Run, e: Eligibility, head: Option<string>)
    ensures ReconcileSuccessfulRun(w, true, atSupervisor, run, e, head).Continue? ==>
      StaleRepairInterrupt(w) && ReconcileSuccessfulRun(w, true, atSupervisor, run, e, head).writtenAs == Some(TestingRepairNode)
  {
  }

  /** Told again about the same run once its state is in place, the service writes nothing, wherever the graph stands by then. */
  lemma ServiceSettles(w: Workflow, interrupted: bool, atSupervisor: bool, run: Run, e: Eligibility, head: Option<string>,
                       interruptedNow: bool, atSupervisorNow: bool)
    requires ReconcileSuccessfulRun(w, interrupted, atSupervisor, run, e, head).Continue?
    ensures
      var next := ReconcileSuccessfulRun(w, interrupted, atSupervisor, run, e, head).state;
      && AcceptedCurrentHead(next, head)
      && ReconcileSuccessfulRun(next, interruptedNow, atSupervisorNow, run, e, head)
         == if !interruptedNow && atSupervisorNow then Continue(next, None) else LeaveAlone
  {
    ReconcileFixpoint(w, run, e, head);
  }

  // ---------------------------------------------------------------- on the fields

  /** The run passed and was accepted for this head, and its verdict is about no other commit. */
  predicate AcceptedFor(run: Run, e: Eligibility, head: Option<string>) {
    && head.Some? && head.value != ""
    && run.validated == head && e.sourceCommit == head && e.targetCommit == head && e.commitMatch
    && run.status == PassedRun && run.decision in {Some(Accepted), Some(AcceptedWithWarnings)} && e.eligible
  }

  /** A test run waits for approval on behalf of a CI repair: one under way, with a run it goes back to, chosen or caused by CI. */
  predicate WaitsForRepair(w: Workflow) {
    && w.pending.operation == Some(RunTests) && w.pending.toolMatches && w.pending.status == Waiting
    && w.repair.state in {Pending, Running} && w.repair.sourceRun.Some? && w.repair.sourceRun.value != ""
    && (w.supervisorChoseRepair || w.failure.stage == Some(CiStage))
  }

  lemma ApplicableIff(w: Workflow, run: Run, e: Eligibility, head: Option<string>)
    ensures Reconcile(w, run, e, head).Reconciled? <==> AcceptedFor(run, e, head)
    ensures Reconcile(w, run, e, head).Reconciled? ==> (Reconcile(w, run, e, head).clearsInterrupt <==> WaitsForRepair(w))
  {
  }

  /** The CI fields a reconciliation writes are those of the run. */
  lemma CiWritten(w: Workflow, run: Run, e: Eligibility, head: Option<string>)
    requires AcceptedFor(run, e, head)
    ensures
      var r := Reconcile(w, run, e, head);
      && r.Reconciled?
      && r.state.ci.state == CiPassed && r.state.ci.validated == head && r.state.ci.runId == run.id && r.state.ci.eligible
      && r.state.ci.status == Some(PassedRun) && r.state.ci.decision == run.decision && r.state.ci.eligibility == Some(e)
      && r.state.ci.failure.None? && r.state.ci.gates == run.gates
      && r.state.commits == w.commits && r.state.projectKnown == w.projectKnown
  {
  }

  /** Where no repair waits for approval, everything outside CI stays as it was. */
  lemma OthersKept(w: Workflow, run: Run, e: Eligibility, head: Option<string>)
    requires AcceptedFor(run, e, head) && !WaitsForRepair(w)
    ensures
      var r := Reconcile(w, run, e, head);
      && r.Reconciled?
      && r.state.pending == w.pending && r.state.repair == w.repair && r.state.failure == w.failure && r.state.tests == w.tests
      && r.state.terminal == w.terminal && r.state.supervisorChoseRepair == w.supervisorChoseRepair
  {
  }

  /** Where one does, the approval and the repair are gone, attempts and lineage stay, and a failure of CI is forgotten with them. */
  lemma RepairForgotten(w: Workflow, run: Run, e: Eligibility, head: Option<string>)
    requires AcceptedFor(run, e, head) && WaitsForRepair(w)
    ensures
      var r := Reconcile(w, run, e, head);
      && r.Reconciled?
      && r.state.pending.operation.None? && r.state.pending.status == NoApproval && !r.state.pending.toolMatches
      && r.state.repair == CiRepair(NotRequired, w.repair.attempts, None, None, None, w.repair.lineage)
      && r.state.terminal.None? && !r.state.supervisorChoseRepair
      && (w.failure.stage == Some(CiStage) ==>
            r.state.failure.stage.None? && r.state.failure.kind.None? && r.state.failure.testSummary.None?)
      && (w.failure.stage != Some(CiStage) ==> r.state.failure == w.failure)
  {
  }

  /** The tests pass again exactly when the summary of the last run says so, and under that summary. */
  lemma TestsRestored(w: Workflow, run: Run, e: Eligibility, head: Option<string>)
    requires AcceptedFor(run, e, head) && WaitsForRepair(w)
    ensures
      var r := Reconcile(w, run, e, head);
      && r.Reconciled?
      && r.state.tests.finalSummary == w.tests.finalSummary
      && (PassingSummary(w.tests.finalSummary) ==>
            r.state.tests.executed && r.state.tests.passed && r.state.tests.resultPassed && r.state.tests.resultSummary == w.tests.finalSummary)
      && (!PassingSummary(w.tests.finalSummary) ==> r.state.tests == w.tests)
  {
  }

  /** The service goes on over a waiting interrupt if and only if it is that of a CI repair and the run was accepted for this head. */
  lemma InterruptConsumedIff(w: Workflow, atSupervisor: bool, run: Run, e: Eligibility, head: Option<string>)
    ensures ReconcileSuccessfulRun(w, true, atSupervisor, run, e, head).Continue? <==> AcceptedFor(run, e, head) && WaitsForRepair(w)
  {
  }

  /** Nothing is left for a reconciliation to write. */
  predicate AlreadyThere(w: Workflow, run: Run, e: Eligibility, head: Option<string>) {
    || (!WaitsForRepair(w) && w.ci.validated == head && w.ci.status == Some(PassedRun)
        && w.ci.decision in {Some(Accepted), Some(AcceptedWithWarnings)} && w.ci.eligible)
    || Reconcile(w, run, e, head) == Reconciled(w, false)
  }

  /** Without an interrupt it writes what is missing, and otherwise only wakes a graph that stands at the supervisor. */
  lemma UninterruptedActions(w: Workflow, atSupervisor: bool, run: Run, e: Eligibility, head: Option<string>)
    ensures
      var action, r := ReconcileSuccessfulRun(w, false, atSupervisor, run, e, head), Reconcile(w, run, e, head);
      if !AcceptedFor(run, e, head) then action == LeaveAlone
      else if AlreadyThere(w, run, e, head) then action == if atSupervisor then Continue(w, None) else LeaveAlone
      else r.Reconciled? && action == Continue(r.state, Some(if WaitsForRepair(w) then TestingRepairNode else CiPipelineNode))
  {
  }

  // ---------------------------------------------------------------- what a summary says

  /** The text from i on is a positive number up to j, blanks up to k, and the word, standing by itself. */
  ghost predicate MentionedAt(s: string, word: string, i: nat, j: nat, k: nat) {
    && i < j < k && k + |word| <= |s|
    && (i == 0 || !WordChar(s[i - 1])) && s[i] != '0'
    && (forall x :: i <= x < j ==> Digit(s[x]))
    && (forall x :: j <= x < k ==> Space(s[x]))
    && Lower(s[k..k + |word|]) == word
    && (k + |word| == |s| || !WordChar(s[k + |word|]))
  }

  lemma {:induction false} DigitsUpTo(s: string, i: nat, k: nat)
    requires i <= k <= |s| && (forall x :: i <= x < k ==> Digit(s[x])) && (k < |s| ==> !Digit(s[k]))
    ensures AfterDigits(s, i) == k
    decreases k - i
  {
    if i < k {
      DigitsUpTo(s, i + 1, k);
    }
  }

  lemma {:induction false} SpacesUpTo(s: string, i: nat, k: nat)
    requires i <= k <= |s| && (forall x :: i <= x < k ==> Space(s[x])) && (k < |s| ==> !Space(s[k]))
    ensures AfterSpaces(s, i) == k
    decreases k - i
  {
    if i < k {
      SpacesUpTo(s, i + 1, k);
    }
  }

  lemma {:induction false} DigitsMeant(s: string, i: nat)
    requires i <= |s|
    ensures forall x :: i <= x < AfterDigits(s, i) ==> Digit(s[x])
    decreases |s| - i
  {
    if i < |s| && Digit(s[i]) {
      DigitsMeant(s, i + 1);
    }
  }

  lemma {:induction false} SpacesMeant(s: string, i: nat)
    requires i <= |s|
    ensures forall x :: i <= x < AfterSpaces(s, i) ==> Space(s[x])
    decreases |s| - i
  {
    if i < |s| && Space(s[i]) {
      SpacesMeant(s, i + 1);
    }
  }

  predicate Letter(c: char) {
    'a' <= c <= 'z'
  }

  lemma LowerFirst(s: string, k: nat, word: string)
    requires word != "" && Letter(word[0]) && k + |word| <= |s| && Lower(s[k..k + |word|]) == word
    ensures !Space(s[k]) && !Digit(s[k])
  {
    assert s[k..k + |word|][0] == s[k];
    assert LowerChar(s[k]) == word[0];
  }

  ghost predicate Mentioned(s: string, word: string) {
    exists i: nat, j: nat, k: nat :: MentionedAt(s, word, i, j, k)
  }

  lemma CountedIsMentioned(s: string, word: string, i: nat)
    requires i < |s| && CountAt(s, i, word)
    ensures Mentioned(s, word)
  {
    var j := AfterDigits(s, i);
    DigitsMeant(s, i);
    SpacesMeant(s, j);
    assert MentionedAt(s, word, i, j, AfterSpaces(s, j));
  }

  lemma MentionedIsCounted(s: string, word: string, i: nat, j: nat, k: nat)
    requires word != "" && Letter(word[0]) && MentionedAt(s, word, i, j, k)
    ensures CountAt(s, i, word)
  {
    LowerFirst(s, k, word);
    DigitsUpTo(s, i, j);
    SpacesUpTo(s, j, k);
  }

  /** The source's pattern for a count finds exactly the texts that mention a positive number of the word. */
  lemma CountsIff(s: string, word: string)
    requires word != "" && Letter(word[0])
    ensures Counts(s, word) <==> Mentioned(s, word)
  {
    if Counts(s, word) {
      var i :| 0 <= i < |s| && CountAt(s, i, word);
      CountedIsMentioned(s, word, i);
    }
    if Mentioned(s, word) {
      var i: nat, j: nat, k: nat :| MentionedAt(s, word, i, j, k);
      MentionedIsCounted(s, word, i, j, k);
    }
  }

  /** A whole word followed by blanks and another whole word, in any case. */
  ghost predicate WordsAt(s: string, first: string, second: string, i: nat, k: nat) {
    && i + |first| < k && k + |second| <= |s|
    && (i == 0 || !WordChar(s[i - 1])) && Lower(s[i..i + |first|]) == first
    && (forall x :: i + |first| <= x < k ==> Space(s[x]))
    && Lower(s[k..k + |second|]) == second
    && (k + |second| == |s| || !WordChar(s[k + |second|]))
  }

  ghost predicate MentionsCollectionError(s: string) {
    exists i: nat, k: nat :: WordsAt(s, "collection", "error", i, k)
  }

  lemma CollectionFound(s: string, i: nat)
    requires i + |"collection"| < |s| && CollectionErrorAt(s, i)
    ensures MentionsCollectionError(s)
  {
    SpacesMeant(s, i + |"collection"|);
    assert WordsAt(s, "collection", "error", i, AfterSpaces(s, i + |"collection"|));
  }

  lemma CollectionMeant(s: string, i: nat, k: nat)
    requires WordsAt(s, "collection", "error", i, k)
    ensures CollectionErrorAt(s, i)
  {
    LowerFirst(s, k, "error");
    SpacesUpTo(s, i + |"collection"|, k);
  }

  lemma CollectionErrorIff(s: string)
    ensures CollectionError(s) <==> MentionsCollectionError(s)
  {
    if CollectionError(s) {
      var i: nat :| i + |"collection"| < |s| && CollectionErrorAt(s, i);
      CollectionFound(s, i);
    }
    if MentionsCollectionError(s) {
      var i: nat, k: nat :| WordsAt(s, "collection", "error", i, k);
      CollectionMeant(s, i, k);
    }
  }

  /** A summary passes when it counts passed tests and mentions neither failures nor errors. */
  lemma SummaryPassesIff(summary: Option<string>)
    ensures PassingSummary(summary) <==>
      && summary.Some? && Mentioned(summary.value, "passed")
      && !Mentioned(summary.value, "failed") && !Mentioned(summary.value, "error") && !Mentioned(summary.value, "errors")
      && !MentionsCollectionError(summary.value)
  {
    if summary.Some? {
      CountsIff(summary.value, "passed");
      CountsIff(summary.value, "failed");
      CountsIff(summary.value, "error");
      CountsIff(summary.value, "errors");
      CollectionErrorIff(summary.value);
    }
  }
}
