/** The CI service behind the step: source revision, the run it stores, and the verdict on a commit (api/services/ci_service.py). */
module CiService {
  import opened Prelude
  import opened WorkflowState
  import opened CiEligibility
  import opened Text

  /** What Git prints of the working tree: its head, nothing when the command fails; and whether only covered changes are there. */
  datatype Checkout = NoRepository | Checkout(head: string, clean: bool)

  datatype Revision = Revision(mode: SourceMode, commit: Option<string>)

  datatype Repairability = Repairability(infrastructure: bool, repairable: bool, failureKind: Option<string>, summary: Option<string>)

  /** How the pipeline ended: an exception, or a stored result. */
  datatype Outcome =
    | Raised(error: string)
    | Finished(id: Option<string>, status: RunStatus, decision: Decision, gates: string, repairability: Repairability, failure: Option<string>)

  /** source_revision: a requested commit has to be a full id; without one the head counts only in a clean tree. */
  function SourceRevision(requested: Option<string>, checkout: Checkout): Option<Revision> {
    if Truthy(requested).Some? then (if IsSha(requested.value) then Some(Revision(CommitMode, requested)) else None)
    else match checkout
      case NoRepository => Some(Revision(OtherMode, None))
      case Checkout(head, clean) =>
        var commit := Strip(head);
        Some(Revision(if commit != "" && clean then CommitMode else OtherMode, Truthy(Some(commit))))
  }

  /** prepare and run; None when either raises. */
  function PipelineRun(requested: Option<string>, checkout: Checkout, outcome: Outcome): Option<Run> {
    var revision := SourceRevision(requested, checkout);
    if revision.None? || outcome.Raised? then None
    else
      var r := revision.value;
      Some(Run(outcome.id, r.mode, r.commit, if r.mode.CommitMode? then r.commit else None,
               outcome.status, Some(outcome.decision), outcome.gates))
  }

  /** What the runs in commit mode have in common: they validated their source commit, whose name normalising leaves alone or drops. */
  predicate Written(run: Run) {
    run.mode.CommitMode? ==>
      && run.validated == run.sourceCommit
      && (NormalizeCommitId(run.sourceCommit) == run.sourceCommit || NormalizeCommitId(run.sourceCommit).None?)
  }

  predicate StoredByService(store: seq<Run>) {
    forall i :: 0 <= i < |store| ==> Written(store[i])
  }

  lemma StripTwice(s: string)
    ensures Strip(Strip(s)) == Strip(s)
  {
  }

  /** Whatever is asked for, whatever Git prints and however the pipeline ends, the stored run is of that shape. */
  lemma RunsAreWritten(requested: Option<string>, checkout: Checkout, outcome: Outcome)
    requires PipelineRun(requested, checkout, outcome).Some?
    ensures Written(PipelineRun(requested, checkout, outcome).value)
    ensures Truthy(requested).Some? ==> PipelineRun(requested, checkout, outcome).value.validated == requested
  {
    if Truthy(requested).Some? {
      ShaIsNormal(requested.value);
    } else if checkout.Checkout? {
      StripTwice(checkout.head);
    }
  }

  /** The commit a run stands for: the one asked for, which has to be a full id, or else the head of a clean tree. */
  predicate StandsFor(requested: Option<string>, checkout: Checkout, commit: string) {
    if requested.Some? && requested.value != "" then commit == requested.value && IsSha(commit)
    else checkout.Checkout? && checkout.clean && commit == Strip(checkout.head) && commit != ""
  }

  /** A run is stored unless it raised or was asked for something that is no commit id, and validates exactly the commit it stands for. */
  lemma ValidatesIff(requested: Option<string>, checkout: Checkout, outcome: Outcome, commit: string)
    ensures
      var run := PipelineRun(requested, checkout, outcome);
      && (run.None? <==> outcome.Raised? || (requested.Some? && requested.value != "" && !IsSha(requested.value)))
      && (run.Some? ==> (run.value.validated == Some(commit) <==> StandsFor(requested, checkout, commit)))
      && (run.Some? ==> run.value.validated != Some(""))
      && (run.Some? ==> (run.value.mode == CommitMode <==> run.value.validated.Some?))
      && (run.Some? ==> run.value.id == outcome.id && run.value.status == outcome.status && run.value.decision == Some(outcome.decision)
                        && run.value.gates == outcome.gates)
  {
  }

  /** One call of the service. */
  datatype Submission = Submission(requested: Option<string>, checkout: Checkout, outcome: Outcome)

  /** The store after these calls, newest first; a call that raised stored nothing that counts. */
  function StoreAfter(submissions: seq<Submission>): seq<Run> {
    if submissions == [] then []
    else
      var s := submissions[|submissions| - 1];
      var run := PipelineRun(s.requested, s.checkout, s.outcome);
      (if run.Some? then [run.value] else []) + StoreAfter(submissions[..|submissions| - 1])
  }

  /** Every store the service builds holds only such runs. */
  lemma {:induction false} StoreIsWritten(submissions: seq<Submission>)
    ensures StoredByService(StoreAfter(submissions))
  {
    if submissions != [] {
      var s := submissions[|submissions| - 1];
      StoreIsWritten(submissions[..|submissions| - 1]);
      if PipelineRun(s.requested, s.checkout, s.outcome).Some? {
        RunsAreWritten(s.requested, s.checkout, s.outcome);
      }
    }
  }

  predicate CompletedFor(run: Run, commit: string) {
    !run.status.OtherStatus? && run.sourceCommit == Some(commit) && run.decision.Some?
  }

  /** The store lists its runs newest first. */
  function LatestCompleted(store: seq<Run>, commit: string): Option<Run> {
    if store == [] then None
    else if CompletedFor(store[0], commit) then Some(store[0])
    else LatestCompleted(store[1..], commit)
  }

  method LatestCompletedRunForCommit(store: seq<Run>, commit: string) returns (found: Option<Run>)
    ensures found == LatestCompleted(store, commit)
  {
    var i := 0;
    while i < |store|
      invariant 0 <= i <= |store|
      invariant LatestCompleted(store, commit) == LatestCompleted(store[i..], commit)
    {
      if CompletedFor(store[i], commit) {
        return Some(store[i]);
      }
      i := i + 1;
    }
    return None;
  }

  /** The newest completed run of the commit: one at a place with none before it, and None exactly when there is none. */
  lemma {:induction false} LatestIsFirst(store: seq<Run>, commit: string)
    ensures
      match LatestCompleted(store, commit)
      case None => forall i :: 0 <= i < |store| ==> !CompletedFor(store[i], commit)
      case Some(run) =>
        exists i :: 0 <= i < |store| && store[i] == run && CompletedFor(run, commit)
          && forall j :: 0 <= j < i ==> !CompletedFor(store[j], commit)
  {
    if store != [] && !CompletedFor(store[0], commit) {
      LatestIsFirst(store[1..], commit);
      var rest := LatestCompleted(store[1..], commit);
      if rest.Some? {
        var i :| 0 <= i < |store| - 1 && store[1..][i] == rest.value
          && forall j :: 0 <= j < i ==> !CompletedFor(store[1..][j], commit);
        assert store[i + 1] == rest.value;
        forall j | 0 <= j < i + 1 ensures !CompletedFor(store[j], commit) {
          assert j > 0 ==> store[j] == store[1..][j - 1];
        }
      } else {
        forall i | 0 <= i < |store| ensures !CompletedFor(store[i], commit) {
          assert i > 0 ==> store[i] == store[1..][i - 1];
        }
      }
    }
  }

  function PromotionEligibility(store: seq<Run>, commit: Option<string>, policy: Policy): Eligibility {
    EvaluateEligibility(commit, if Truthy(commit).Some? then LatestCompleted(store, commit.value) else None, policy)
  }

  /** Under a required policy a verdict in favour names the very commit asked for, letter by letter, and some stored run accepted it. */
  lemma VerdictNamesCommit(store: seq<Run>, commit: Option<string>, policy: Policy)
    requires policy.required && StoredByService(store) && PromotionEligibility(store, commit, policy).eligible
    ensures PromotionEligibility(store, commit, policy).sourceCommit == commit && commit.Some? && IsSha(commit.value)
    ensures exists run :: run in store && run.validated == commit && run.decision.Some? && run.decision != Some(Rejected)
  {
    var found := LatestCompleted(store, commit.value);
    EligibleExactly(commit, found, policy);
    LatestIsFirst(store, commit.value);
    var run := found.value;
    var i :| 0 <= i < |store| && store[i] == run;
    assert Written(store[i]) && run.sourceCommit == commit;
    ShaIsNormal(commit.value);
  }

  /** A run that completes decides alone: asked next, the service answers by it, whatever earlier runs of the commit said. */
  lemma FreshRunDecides(store: seq<Run>, commit: string, checkout: Checkout, outcome: Outcome, policy: Policy)
    requires policy.required && commit != "" && PipelineRun(Some(commit), checkout, outcome).Some?
    requires !outcome.status.OtherStatus?
    ensures
      var run := PipelineRun(Some(commit), checkout, outcome).value;
      PromotionEligibility([run] + store, Some(commit), policy).eligible ==
        (outcome.decision.Accepted? || (outcome.decision.AcceptedWithWarnings? && policy.allowWarnings))
  {
    ShaIsNormal(commit);
    var run := PipelineRun(Some(commit), checkout, outcome).value;
    assert LatestCompleted([run] + store, commit) == Some(run);
    EligibleExactly(Some(commit), Some(run), policy);
  }
}
