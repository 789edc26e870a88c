/** When a CI run allows promotion of a commit (api/services/ci_service.py). */
module CiEligibility {
  import opened Prelude
  import opened Text
  import opened WorkflowState

  datatype Policy = Policy(required: bool, allowWarnings: bool)

  datatype SourceMode = CommitMode | OtherMode

  /** A finished run as the store returns it. */
  datatype Run = Run(
    id: Option<string>,
    mode: SourceMode,
    sourceCommit: Option<string>,
    validated: Option<string>,
    status: RunStatus,
    decision: Option<Decision>,
    gates: string)

  predicate HexDigit(c: char) {
    '0' <= c <= '9' || 'a' <= c <= 'f' || 'A' <= c <= 'F'
  }

  predicate IsSha(s: string) {
    40 <= |s| <= 64 && forall i :: 0 <= i < |s| ==> HexDigit(s[i])
  }

  function NormalizeCommitId(value: Option<string>): (r: Option<string>)
    ensures r.Some? ==> IsSha(r.value)
  {
    var text := Strip(value.GetOr(""));
    if IsSha(text) then Some(text) else None
  }

  lemma ShaIsNormal(s: string)
    ensures NormalizeCommitId(Some(s)) == Some(s) <==> IsSha(s)
  {
    if IsSha(s) {
      assert !Space(s[0]) && !Space(s[|s| - 1]);
    }
  }

  function SourceOf(run: Run): Option<string> {
    NormalizeCommitId(Or(run.sourceCommit, run.validated))
  }

  function Verdict(eligible: bool, target: Option<string>, run: Run): Eligibility {
    Eligibility(true, eligible, SourceOf(run) == target, SourceOf(run), target, run.id, Some(run.status), run.decision)
  }

  function EvaluateEligibility(requested: Option<string>, run: Option<Run>, policy: Policy): Eligibility {
    var target := NormalizeCommitId(requested);
    if !policy.required then Eligibility(false, true, true, None, target, None, None, None)
    else if target.None? then Eligibility(true, false, false, None, None, None, None, None)
    else if run.None? then Eligibility(true, false, false, None, target, None, None, None)
    else if run.value.mode != CommitMode || SourceOf(run.value).None? then Verdict(false, target, run.value)
    else if SourceOf(run.value) != target then Verdict(false, target, run.value)
    else if run.value.status.OtherStatus? || run.value.decision.None? then Verdict(false, target, run.value)
    else if run.value.decision == Some(Rejected) then Verdict(false, target, run.value)
    else if run.value.decision == Some(AcceptedWithWarnings) && !policy.allowWarnings then Verdict(false, target, run.value)
    else Verdict(true, target, run.value)
  }

  /** A required policy is satisfied exactly by a finished, accepted run of the very commit asked for. */
  lemma EligibleExactly(requested: Option<string>, run: Option<Run>, policy: Policy)
    requires policy.required
    ensures
      var target := NormalizeCommitId(requested);
      EvaluateEligibility(requested, run, policy).eligible == (
        && target.Some? && run.Some?
        && run.value.mode == CommitMode && SourceOf(run.value) == target
        && !run.value.status.OtherStatus?
        && (run.value.decision == Some(Accepted) || (run.value.decision == Some(AcceptedWithWarnings) && policy.allowWarnings)))
  {
    if run.Some? && run.value.decision.Some? {
      match run.value.decision.value
      case Accepted =>
      case AcceptedWithWarnings =>
      case Rejected =>
    }
  }

  /** What the workflow may rely on: under a required policy, eligible means source, target and request are one commit. */
  lemma EligibleCommit(requested: Option<string>, run: Option<Run>, policy: Policy)
    requires EvaluateEligibility(requested, run, policy).eligible
    ensures
      var e := EvaluateEligibility(requested, run, policy);
      && e.required == policy.required
      && e.targetCommit == NormalizeCommitId(requested)
      && (policy.required ==> e.sourceCommit == e.targetCommit && e.sourceCommit.Some? && e.commitMatch)
      && (!policy.required ==> e.sourceCommit.None?)
  {
  }
}
