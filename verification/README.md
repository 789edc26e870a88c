# Verified model of the governed agent workflow

This project models, in Dafny, the parts of the repository that decide: the statistics of planner-policy
experiments and rollouts, the Host's tool-calling state machine, the approval / commit / CI / repair protocol
of the workflow graph, the detection of conflicts between experiments, and the two normaliser/validator pairs
(requirements files and dirty Git paths). `dafny verify dfyconfig.toml` checks everything.

## How it is organised

| files | what they hold |
|---|---|
| `Prelude`, `Sorting`, `Text`, `PairLists`, `Numerics` | options and filters; `sorted(set)`; ASCII string operations of Python; lists gathered from pairs; rounding and order lemmas over the reals |
| `WilsonInterval`, `ExperimentMetrics`, `WinnerSelection`, `ExperimentEvaluation`, `ExperimentMeaning`, `PromotionReadiness`, `ReadinessMeaning`, `ExperimentAllocation`, `PolicyRollout` | experiment and rollout mathematics; the two `Meaning` modules say what evaluation and readiness come to on the reported numbers |
| `PolicyPortfolio`, `PortfolioMeaning` | conflicts between active experiments and rollouts; which pairs report what |
| `DependencyPolicy`, `FirstMatch`, `HostDependencyCheck`, `GitDirtyPaths` | normalisers and validators; the first element a test picks out of a list |
| `HostState`, `HostRuns`, `HostMeaning`, `HostExecution`, `ToolExecutor` | the Host: state functions, claims over runs, every decision and mark on the fields, the object itself, the adapter to the graph |
| `WorkflowState`, `CiEligibility`, `CiService`, `CiPipeline`, `CiOutcomes`, `SupervisorGuards`, `HandoffMeaning`, `CommitProtocol`, `CiReconciliation`, `ApprovalGraph`, `ApprovalWalks`, `PromotionRuns`, `ApprovalService` | the workflow protocol: verdicts and runs of the CI service, the CI step and its outcomes, the guards that choose the next stage and when each offers it, commits, reconciliation, approvals and what they deliver, and runs that join them up to the merge |

Code that works in place is a method (with its loops) or a class, proved equal to a function of the old state;
the claims are then lemmas about that function, over single calls and over whole runs. Beside the claims, lemmas named `...Iff` and `...Means`
say on the fields of the input and without the function's own helpers when each outcome occurs.

## Conventions of the model

- Floats are reals. `round(x, 6)` and `round(x, 4)` are exact half-even rounding of the real; `math.sqrt` and
  `NormalDist().inv_cdf` are the two functions of `MathLibrary`, of which only `Lawful()` is used: the root is
  non-negative and squares back, the quantile is monotone and non-negative from 0.5 up.
- SHA-256 is an arbitrary function from text to a natural number, reduced to a bucket as the code does.
- Strings are ASCII. Where the code looks into text that only helpers understand (paths of a pytest report, the
  import in a test file, a rejection key) the helper is a function parameter (`Helpers`), so every claim holds for all of them.
- What other systems answer (tool results, approvals, CI runs, what the checkpointer reports) is a parameter of each
  step and is arbitrary unless a lemma's `requires` says otherwise. An exception raised by a client or service is one
  of the possible answers.
- A **guided run** of the Host is one where each round offers what `get_allowed_tools` returns, the calls of the round use
  that tool, and the round ends behind the first call of a registered sensitive tool, as `run_openai_loop` arranges. The Host
  does not check this itself (`UnguidedOrderBreaks`), so stage order and the repair bound are stated for guided runs; the bound
  on test runs and the approval claims hold for every run.
- The CI service is modelled down to its store: a verdict is computed from the runs that any sequence of calls to the service
  has stored (`CiService.StoreAfter`), and the pipeline is an arbitrary outcome.
- In `CommitProtocol` a run is over a `Deployment`, whose one setting CI_PROMOTION_REQUIRED the graph and the service each read
  in their own way. A CI step occurs only where the supervisor's guards offered it.

## What the proofs found

- *Practical significance is not gated.* The readiness branches never test it. It holds for the comparison produced by
  the evaluation itself (`WinnerIsPractical`), and otherwise "ready" leaves exactly that check open
  (`ReadyUpToPractical`, `ReadyWithoutPracticalEffect`).
- *Exact-commit safety of the CI step in isolation needs a required CI policy.* With CI not required, the verdict has no source
  commit, and the step allows promotion with `ci_validated_commit` empty (`StepExactIff`, with `NotRequiredInexact` as the case).
  The supervisor never gets there: it offers the step only where the graph demands CI, and then the service demands it too
  (`CiOfferedIff`, `GraphImpliesService`). So over whole runs no assumption on the policy is left, and exactness holds at every
  state if and only if each commit, merge, moved head and reconciliation meets its own condition (`ExactShaInEveryRun`).
- *Two of those conditions can really be missed.* `POST /ci/run` (api/routes/ci.py:154-180) runs the pipeline at the head Git reports
  and reconciles with it, even where the graph has not recorded that head (`UnseenHeadBreaks`); and a required promotion that was turned
  down sends the graph back to Git (`CommitsAfterRejection`), where a further implementation commit leaves the old verdict standing
  (`UnguardedCommitBreaks`) until the supervisor has CI run again.
- *What is merged is validated, but for one moment.* Where the graph demands CI, the candidate is validated at every promotion node of
  every run (`EveryMergeValidated`), provided no accepted run of another head is reconciled between the preparation of a promotion
  and the registration of its interrupt. In that moment the supervisor, finding an approval waiting, follows its old decision and
  the graph merges although its verdict is on another commit than its candidate (`UnseenHeadMerges`). The check the Git service makes
  at the merge itself is not part of this model.
- *One setting, two readings.* CI_PROMOTION_REQUIRED=1 makes the service demand CI while the graph does not (`ServiceAloneRequires`;
  `SettingsAgreeIff` says for which texts they agree): the workflow then finishes without a CI run, and its commit stays ineligible.
- *The supervisor has no choice.* Outside a waiting approval its guards leave exactly one target and it is taken, whatever the model
  would answer and even with the development switch that forces a model decision (`SupervisorDetermined`). While an approval waits
  it decides nothing, and the router follows the previous decision.
- *A limit of zero repair attempts does not bound the lineage.* The slice `[-0:]` keeps the whole list, so the rejection that
  exhausts the repair, and with it ends the request, adds an entry to a lineage of any length (`LineageGrowsAtZero`).
- *The Host can refuse a normalised file list.* Its project check looks at the first file whose base name matches, in any
  directory, while the normaliser only rewrites the root file: accepted if and only if no refused nested file comes
  first (`ProjectAcceptedIff`, `NestedFileRefused`).
- *Path normalisation is not idempotent.* It is exactly when no blank is left at an end and no drive letter came to the front
  (`NormalizeAgain`): "/./C:x" becomes "C:x", which is refused (`HiddenDrive`, `DriveExists`), and "a /" becomes "a ", then "a" (`HiddenBlank`).
- *A run that collects no tests leaves the Host stuck.* Exit code 5 sets the status `tests_failed`, which does not end the request; the
  repair that follows has no failing file to read, so from then on every call is refused (`NoTestsCollectedStuck`).
- *A read during repair advances on any payload*, a failed one included, and exit code 5 resets the phase; the bound on
  fixes survives both (`AtMostTwoFixes`), and counts the updates that succeeded at their client.

## Model

| member | source | states |
|---|---|---|
| WilsonInterval.InvertsScoreTest | graph/planner_policy_experiment.py:299-312 | for every x, x lies within the unrounded bounds if and only if the score polynomial is not positive at x: the bounds are the roots of the quadratic, not just some interval |
| WilsonInterval.ScoreTestScaled | graph/planner_policy_experiment.py:299-312 | that polynomial is the score test n(x-p)^2 <= z^2 x(1-x) |
| WilsonInterval.BoundsOrdered | graph/planner_policy_experiment.py:299-312 | for all n > 0, 0 <= successes <= n, z >= 0: 0 <= lower <= p <= upper <= 1, so the clamps never change a bound |
| WilsonInterval.BoundsNested | graph/planner_policy_experiment.py:299-312 | a larger z gives bounds that contain the smaller ones |
| WilsonInterval.IntervalReported | graph/planner_policy_experiment.py:299-312 | the reported interval is the rounded unclamped one, ordered around the rounded estimate within [0, 1] |
| WilsonInterval.IntervalNested | graph/planner_policy_experiment.py:295-312 | raising the confidence level never shrinks the reported interval |
| ExperimentMetrics.MinimumEffectPositive | graph/planner_policy_experiment.py:24-42 | every metric definition asks for a positive effect |
| ExperimentMetrics.MetricGroups | graph/planner_policy_experiment.py:24-42 | which metrics are scores, means and better when higher, and the effect each asks for |
| ExperimentMetrics.AliasesAgree | graph/planner_policy_experiment.py:123-140 | an alias names a metric of the same definition and is no alias itself |
| ExperimentMetrics.DeltaNested | graph/planner_policy_experiment.py:351-378 | for rates and means a higher confidence level gives a delta interval containing the lower one |
| ExperimentMetrics.MeanIntervalCentre | graph/planner_policy_experiment.py:351-378 | for two means the bounds are the difference candidate minus control, minus and plus the half-width, each rounded |
| ExperimentMetrics.RateIntervalCentre | graph/planner_policy_experiment.py:351-378 | for two rates the same around the difference of their proportions |
| ExperimentMetrics.MeanHalfWidth | graph/planner_policy_experiment.py:370-378 | the half-width before rounding is the non-negative number whose square is z squared times sd^2/n of the one plus sd^2/n of the other group, z the quantile at (1 + confidence)/2 |
| ExperimentMetrics.RateHalfWidth | graph/planner_policy_experiment.py:365-378 | for rates z squared times p(1-p)/n plus q(1-q)/m |
| ExperimentMetrics.SignificantMeanIsBetter | graph/planner_policy_experiment.py:526-539 | a significant mean is on the better side of the control's mean, for either direction and every lawful library |
| ExperimentMetrics.SignificantRateIsBetter | graph/planner_policy_experiment.py:526-539 | a significant rate is on the better side of the control's proportion |
| ExperimentMetrics.AdjustedContainsPlain | graph/planner_policy_experiment.py:501-539 | for any number of variants and both directions the family-wise adjusted interval contains the plain one despite mirroring and rounding, so adjusted significance implies plain significance |
| ExperimentMetrics.FamilyWiseLevel | graph/planner_policy_experiment.py:501 | the chances of error the adjusted level leaves to each of k comparisons add up to those of the family |
| ExperimentMetrics.MirrorExact | graph/planner_policy_experiment.py:526-539 | mirroring a rounded interval for a lower-is-better metric loses nothing to the second rounding |
| ExperimentMetrics.RequiredSampleIsLeast | graph/planner_policy_experiment.py:394-406 | the estimated sample size is the least positive n whose doubled interval variance fits under n times the squared effect |
| ExperimentMetrics.SampleForMean | graph/planner_policy_experiment.py:394-406 | for means the least n that covers twice z squared times the variance, in squared effects |
| ExperimentMetrics.SampleForRate | graph/planner_policy_experiment.py:394-406 | for rates the variance is that of the baseline and of the baseline raised by the effect |
| WinnerSelection.Select | graph/planner_policy_experiment.py:599-656 | the loops over the finished comparisons compute the judgement, and its result kind meets a reference that knows no order |
| WinnerSelection.CollectCandidates | graph/planner_policy_experiment.py:599-612 | the loop keeps, in order, the comparisons that qualify as winner |
| WinnerSelection.CollectEquivalent | graph/planner_policy_experiment.py:630-642 | the loop keeps the other candidates within the minimum effect of the best one |
| WinnerSelection.JudgeMeetsReference | graph/planner_policy_experiment.py:599-656 | whatever list order the code works in, its result kind satisfies a reference relation on the set of comparisons |
| WinnerSelection.ReferenceFunctional | graph/planner_policy_experiment.py:599-656 | that relation admits one outcome: at most one comparison is clear of every other by the minimum effect |
| WinnerSelection.OrderIndependent | graph/planner_policy_experiment.py:599-656 | result kind, winner and decision confidence agree for every ordering of the comparisons |
| WinnerSelection.PreferredEntry | graph/planner_policy_experiment.py:599-656 | a preferred winner is one of the comparisons, qualifies, and beats every other qualifying one by the minimum effect |
| ExperimentEvaluation.CompareVariants | graph/planner_policy_experiment.py:508-598 | the loop yields one comparison per variant in order, and the unsafe ones among them |
| ExperimentEvaluation.EvaluateExperimentResult | graph/planner_policy_experiment.py:451-656 | invalid levels and metrics are errors; otherwise insufficient data, missing control metric, or the judged comparisons: the function that ConfigureMeans, NoVerdictKinds, ResultKinds and WinnerIff characterise on the groups' own numbers |
| ExperimentEvaluation.EnoughDataReported | graph/planner_policy_experiment.py:470-500 | no group is reported insufficient if and only if every variant and the control reach the larger of both minimum samples |
| ExperimentEvaluation.VariantOrderIrrelevant | graph/planner_policy_experiment.py:503-656 | the evaluation's outcome, winner and confidence do not depend on the order of the variants |
| ExperimentEvaluation.PreferredVariant | graph/planner_policy_experiment.py:503-656 | a preferred variant is guardrail-safe, significant plainly and after adjustment, at least the minimum effect above control and that margin above every other qualifying variant; WinnerIsBetter says so of the raw values |
| ExperimentEvaluation.DefaultThresholdForcesSeparation | graph/planner_policy_experiment.py:430-448 | at the default winner threshold the confidence test alone forces a positive adjusted lower bound |
| ExperimentMeaning.ConfigureMeans | graph/planner_policy_experiment.py:50-80 | which settings are refused and how; the accepted ones take the larger minimum sample and let given guardrails stand before the two defaults |
| ExperimentMeaning.GuardrailMeans | graph/planner_policy_experiment.py:511-524 | unsafe exactly when the variant exceeds the control by more than the limit of some guardrail, read under its canonical name, a missing value as zero |
| ExperimentMeaning.ImprovementMeans | graph/planner_policy_experiment.py:290-292 | the improvement is the distance between the values to half a millionth, positive only on the better side in the metric's direction |
| ExperimentMeaning.SignificantMeanIff | graph/planner_policy_experiment.py:526-539 | significant if and only if the candidate's mean leads the control's by more than the half-width, to the last digit kept |
| ExperimentMeaning.SignificantRateIff | graph/planner_policy_experiment.py:526-539 | and a rate if and only if its proportion does |
| ExperimentMeaning.AdequacyMeans | graph/planner_policy_experiment.py:408-417 | the class of a sample by the minimum, the required sample and twice that |
| ExperimentMeaning.ConfidenceParts | graph/planner_policy_experiment.py:430-448 | what sample, effect, separation and guardrails each contribute to the decision confidence |
| ExperimentMeaning.ReportedVerdicts | graph/planner_policy_experiment.py:538-575 | each verdict of a comparison if and only if the numbers of the two groups say so |
| ExperimentMeaning.DetectableIsHalfWidth | graph/planner_policy_experiment.py:381-391 | the minimum detectable effect is the half-width of the plain interval to a millionth |
| ExperimentMeaning.RequiredForMean | graph/planner_policy_experiment.py:542-546 | the sample asked for is the least that covers the control's own variance |
| ExperimentMeaning.RequiredForRate | graph/planner_policy_experiment.py:542-546 | or that of the rate the control reports |
| ExperimentMeaning.NoVerdictKinds | graph/planner_policy_experiment.py:467-494 | too little data and a missing control metric, each if and only if, in that order |
| ExperimentMeaning.ResultKinds | graph/planner_policy_experiment.py:599-656 | unsafe, inconclusive, control preferred, or one or more winners, each if and only if, on the reported numbers |
| ExperimentMeaning.WinnerIff | graph/planner_policy_experiment.py:599-656 | a variant is preferred if and only if it is proven on its numbers and ahead of every other proven one by the minimum effect |
| ExperimentMeaning.WinnerIsBetter | graph/planner_policy_experiment.py:451-656 | a preferred variant is on the better side of the control by its reported value and by its statistics |
| ExperimentMeaning.EquivalentsListed | graph/planner_policy_experiment.py:632-647 | the variants listed as equivalent are the qualifying ones no other leads by the threshold |
| PromotionReadiness.SecondaryConsistency | graph/planner_policy_experiment.py:676-721 | counting classes in one pass reports the worst class present |
| PromotionReadiness.EvaluatePromotionReadiness | graph/planner_policy_experiment.py:775-958 | each status if and only if its own conditions hold; for a winner every reason code is in the report exactly when it applies, once; checks and score as computed; without a winner the status and the one code of the result |
| PromotionReadiness.ScoreRange | graph/planner_policy_experiment.py:659-661 | the rounded average of clamped dimensions stays within 0..100 |
| PromotionReadiness.WinnerIsPractical | graph/planner_policy_experiment.py:599-608 | a winner taken from the evaluation's own comparison and statistics is practically and statistically significant and safe |
| PromotionReadiness.ReadyMeansReady | graph/planner_policy_experiment.py:775-933 | ready on the evaluation's own comparison implies all eight checks and a score at the threshold |
| PromotionReadiness.ReadyUpToPractical | graph/planner_policy_experiment.py:775-933 | whatever the two dictionaries say, ready implies all checks if and only if the comparison says it is practical |
| PromotionReadiness.ReadyWithoutPracticalEffect | graph/planner_policy_experiment.py:775-933 | a concrete request that is answered ready without practical significance |
| ReadinessMeaning.StabilityMeans | graph/planner_policy_experiment.py:724-772 | with two windows of records in both groups the winner degrades if and only if it is behind in the recent half, and improves only above the threshold in both |
| ReadinessMeaning.FadingNeverReady | graph/planner_policy_experiment.py:775-933 | a winner behind in the recent half is never ready |
| ReadinessMeaning.OverallMeans | graph/planner_policy_experiment.py:676-721 | one contradicting metric outweighs any support, and so does one that slips |
| ReadinessMeaning.NumbersRead | graph/planner_policy_experiment.py:827-832 | which of the two dictionaries and which fallback each number comes from |
| ReadinessMeaning.ReadyIff | graph/planner_policy_experiment.py:775-933 | ready if and only if named, endangering nothing, proven on a full sample that could see the effect, uncontradicted, not fading, current, and scoring enough |
| ReadinessMeaning.StatusMeans | graph/planner_policy_experiment.py:913-933 | each other status of a winner, if and only if, on the fields of the request |
| ReadinessMeaning.CodesMean | graph/planner_policy_experiment.py:839-881 | when each reason code is given, on the fields of the request |
| ReadinessMeaning.ConsistencyCodesMean | graph/planner_policy_experiment.py:852-871 | so for the codes on secondary metrics |
| ReadinessMeaning.TemporalCodeMeans | graph/planner_policy_experiment.py:863-871 | and for the code on time |
| ReadinessMeaning.WithoutWinner | graph/planner_policy_experiment.py:664-673 | the status and code of every result without a winner |
| ReadinessMeaning.ScoreIsMean | graph/planner_policy_experiment.py:659-661 | the score is the mean of the dimensions to half a point |
| ReadinessMeaning.StrengthDimension | graph/planner_policy_experiment.py:888-892 | the statistical dimension: 35 without significance, 70 up with the confidence with it |
| ReadinessMeaning.SampleDimension | graph/planner_policy_experiment.py:893-895 | the sample dimension: 80 for the planned sample, between 20 and 100, by the minimum without a plan |
| ReadinessMeaning.EffectDimension | graph/planner_policy_experiment.py:896 | the effect dimension: 35 for each minimum effect, up to 100 |
| ReadinessMeaning.ReadOffDimensions | graph/planner_policy_experiment.py:897-900 | the dimensions read off safety, secondary metrics, stability and risk level |
| ExperimentAllocation.ValidateAllocation | graph/planner_policy_experiment.py:143-155 | accepts exactly allocations over control plus the variants whose values are non-negative numbers with whole parts totalling 100 |
| ExperimentAllocation.WeightsMean | graph/planner_policy_experiment.py:148-153 | values are cut towards zero, and acceptable exactly when they are numbers that are not negative |
| ExperimentAllocation.AssignExperimentVariant | graph/planner_policy_experiment.py:158-177 | the cursor loop returns the arm owning the bucket of the workflow's digest, or control past the last arm |
| ExperimentAllocation.SlotRange | graph/planner_policy_experiment.py:164-177 | arm i gets bucket b if and only if b lies between the cursor before and after it |
| ExperimentAllocation.FallbackUnreachable | graph/planner_policy_experiment.py:177 | for a validated allocation every bucket below 10000 lands in an arm |
| ExperimentAllocation.ArmShare | graph/planner_policy_experiment.py:143-177 | each arm receives exactly 100 times its whole percentage of buckets, none at zero percent |
| ExperimentAllocation.ArmsPartition | graph/planner_policy_experiment.py:143-177 | every bucket is received by exactly one arm |
| PolicyRollout.ParseRolloutStages | graph/planner_policy_rollout.py:28-46 | from the text: the defaults for an empty setting; otherwise the numbers written between the commas, accepted exactly when every piece is blank or an integer in 1..100 and `sorted(set(stages))` is the list itself, ending at 100 |
| PolicyRollout.CollectStages | graph/planner_policy_rollout.py:32-43 | the loop keeps the numbers of the readable pieces in order and fails on the first unreadable one |
| PolicyRollout.StagesRoundTrip | graph/planner_policy_rollout.py:28-46 | a list of integers written with commas in between is read back as that list when it is a list of stages, as the defaults when it is empty, and refused otherwise |
| PolicyRollout.ValidStagesIff | graph/planner_policy_rollout.py:44-46 | stages are positive percentages, each larger than the one before, up to 100 |
| PolicyRollout.AcceptedIff | graph/planner_policy_rollout.py:28-46 | a text is accepted if and only if every part between commas is blank or a percentage and the numbers are stages |
| PolicyRollout.AcceptedText | graph/planner_policy_rollout.py:28-46 | and then its stages are the numbers written, whatever blank parts stand between |
| Sorting.SortedIffIncreasing | graph/planner_policy_rollout.py:44 | `sorted(set(s)) == s` holds exactly for strictly increasing lists |
| PolicyRollout.StagesGrow | graph/planner_policy_rollout.py:49-56 | along any parsed list the treated workflow sets grow, and the last stage treats every workflow |
| PolicyRollout.EachPercentOneBucket | graph/planner_policy_rollout.py:49-56 | zero percent treats nobody, and each percent more the workflows of one bucket |
| PolicyRollout.SplitRolloutRecords | graph/planner_policy_rollout.py:164-175 | both sides hold exactly the records on that side, in input order |
| PolicyRollout.SplitPartition | graph/planner_policy_rollout.py:164-175 | with multiplicity, the two sides together are the records assigned to the rollout, and they share none |
| PolicyRollout.AssignedMeans | graph/planner_policy_rollout.py:164-175 | a record counts as assigned exactly when one of its assignments names the rollout |
| PolicyRollout.SideIff | graph/planner_policy_rollout.py:118-130 | a record is treated exactly when its first assignment to the rollout says so, and control when that one does not |
| PolicyPortfolio.RelationshipSymmetric | graph/planner_policy_portfolio.py:23-54 | the relationship has no direction, and only risk against approval conflicts |
| PolicyPortfolio.EvaluatePortfolioConflicts | graph/planner_policy_portfolio.py:108-171 | the nested loops report what every pair of active items gives, in the code's order, with counts and status |
| PairLists.PairsLoop | graph/planner_policy_portfolio.py:129-145 | the triangular loop gathers what each item gives against the items after it |
| PairLists.CrossLoop | graph/planner_policy_portfolio.py:147-159 | the rectangular loop gathers what each left item gives against each right item |
| PolicyPortfolio.BlockedMeansIncompatible | graph/planner_policy_portfolio.py:129-170 | blocked exactly when some active pair shares policy and scope or has conflicting areas in one scope |
| PolicyPortfolio.OrderIrrelevant | graph/planner_policy_portfolio.py:126-160 | reordering both lists changes no finding beyond which of its two items is written first |
| PolicyPortfolio.IsolationOrderIndependent | graph/planner_policy_portfolio.py:108-171 | blocking and warning counts are the same for every order of the stored experiments and rollouts |
| PolicyPortfolio.OwnVersionReplaced | graph/planner_policy_portfolio.py:119-124 | no finding sets a candidate experiment against its own stored version |
| PolicyPortfolio.StoredVersionIgnored | graph/planner_policy_portfolio.py:119-124 | whatever is stored under the candidate's id has no influence |
| PortfolioMeaning.ActiveIff | graph/planner_policy_portfolio.py:57-70 | a paused item is visible but not active, and of the rest exactly the listed statuses are |
| PortfolioMeaning.ActiveMembers | graph/planner_policy_portfolio.py:116-124 | the items weighed are the stored active ones the candidate does not replace, and the candidate if it is active |
| PortfolioMeaning.RelationshipIff | graph/planner_policy_portfolio.py:23-54 | same area, related and conflicting, each if and only if |
| PortfolioMeaning.InfluenceIff | graph/planner_policy_portfolio.py:36-42 | which areas move which metric |
| PortfolioMeaning.ConflictsIff | graph/planner_policy_portfolio.py:129-155 | a conflict is reported if and only if its two items are an active pair that cannot both run, with the type that says why |
| PortfolioMeaning.WarningsIff | graph/planner_policy_portfolio.py:129-159 | a warning is reported if and only if its items are neighbours in one scope or one moves the other's metric |
| PortfolioMeaning.WarningCount | graph/planner_policy_portfolio.py:129-159 | how many warnings each pair gives: one for each reason |
| DependencyPolicy.RequirementLines | policies/dependencies.py:46-52 | the loop returns the trimmed, comment-free, non-empty lines in order |
| DependencyPolicy.LinesUndoJoin | policies/dependencies.py:46-52 | reading back joined clean lines gives the same lines |
| DependencyPolicy.LinesStable | policies/dependencies.py:46-52 | lines read from any content are clean, so joining and reading them again changes nothing |
| DependencyPolicy.NormalizeDependencyFile | policies/dependencies.py:85-113 | the method with its scan for optional names computes the normalised list |
| DependencyPolicy.ValidateDependencyFile | policies/dependencies.py:116-143 | the method with its three loops computes the error list, duplicates dropped |
| DependencyPolicy.ValidMeansConforming | policies/dependencies.py:116-143 | no error if and only if the file exists, has every required line, only allowed lines, and none twice |
| DependencyPolicy.ErrorsIff | policies/dependencies.py:116-143 | every error of a file list if and only if: no requirements file, a required line missing or at another version, a line not allowed, a line twice |
| DependencyPolicy.NormalizeThenValidate | policies/dependencies.py:85-143 | for every framework and file list normalising then validating reports nothing, and normalising twice is normalising once |
| DependencyPolicy.OptionalKeptIffNamed | policies/dependencies.py:98-109 | a pinned line is in the result exactly when it is required or the input named it |
| DependencyPolicy.OthersUntouched | policies/dependencies.py:92-113 | only the requirements file changes, in place; it is appended when missing |
| DependencyPolicy.FastapiPolicyWellFormed | policies/dependencies.py:19-33 | the shipped table consists of clean lines that name their own keys, no two alike |
| HostDependencyCheck.HostAcceptsIff | host.py:164-190 | accepted exactly when no line mentions FastAPI or both pinned lines are present; the remaining branches never accept more |
| HostDependencyCheck.ViolationNames | host.py:164-190 | which line a refusal asks for: FastAPI while the first mention is another one, then pytest |
| HostDependencyCheck.ValidIsHostAccepted | host.py:164-190 | what the validator accepts the Host accepts |
| HostDependencyCheck.NormalizedIsHostAccepted | host.py:164-190 | the Host accepts the content of every normalised requirements file |
| HostDependencyCheck.ProjectAcceptedIff | host.py:193-202 | the Host accepts the whole normalised list if and only if no nested requirements file it refuses comes first |
| HostDependencyCheck.NestedFileRefused | host.py:193-202 | a nested file that only names FastAPI makes it refuse |
| GitDirtyPaths.NormalizeRepositoryPath | git_dirty_paths.py:21-29 | the stripping loop and checks compute the normalised path or refuse |
| GitDirtyPaths.NormalizedShape | git_dirty_paths.py:21-38 | a normalised path is its components joined, none empty, ".", ".." or any spelling of .git |
| GitDirtyPaths.RefusedIff | git_dirty_paths.py:21-38 | refused exactly when nothing is left, a drive letter leads, or a component is ".." or any spelling of .git |
| GitDirtyPaths.NormalizedInjective | git_dirty_paths.py:21-29 | comparing normalised strings is comparing component lists |
| GitDirtyPaths.NormalizeAgain | git_dirty_paths.py:21-29 | normalising again changes nothing if and only if no blank is at an end and no drive letter at the front |
| GitDirtyPaths.HiddenDrive | git_dirty_paths.py:21-29 | every safe path with a drive letter in front is refused, and accepted as itself behind "/./": normalised twice it is refused |
| GitDirtyPaths.HiddenBlank | git_dirty_paths.py:21-29 | "a /" is normalised to "a ", and that to "a" |
| GitDirtyPaths.ExpandDirectoryFiles | git_dirty_paths.py:104-129 | the loop over a directory gives its non-infrastructure files, or nothing as soon as an entry escapes or is unsafe |
| GitDirtyPaths.ClassifyDirtyPaths | git_dirty_paths.py:50-101 | the loops over the four status lists compute the classification |
| GitDirtyPaths.ClassifiedMembers | git_dirty_paths.py:61-101 | a path is in one of the three sets exactly when some reported path got that verdict |
| GitDirtyPaths.AcceptedAreCommittable | git_dirty_paths.py:50-101 | accepted paths are allow-listed, safe and no infrastructure; accepted and ignored are disjoint |
| GitDirtyPaths.NothingUnrelatedMeans | git_dirty_paths.py:50-101 | nothing unrelated if and only if every changed path is allow-listed, infrastructure, or an untracked directory whose files all are |
| GitDirtyPaths.DirectoryFilesCovered | git_dirty_paths.py:89-94 | every non-infrastructure file below such a directory is allow-listed, and nothing below it escapes |
| GitDirtyPaths.InfrastructureIff | git_dirty_paths.py:41-47 | infrastructure is what lies in a virtual environment or a cache, and a coverage file |
| GitDirtyPaths.DirectoryAcceptedIff | git_dirty_paths.py:75-97 | an untracked path that is not allow-listed is accepted if and only if it is written as or is a directory of allow-listed files |
| GitDirtyPaths.UnrelatedShrinks | git_dirty_paths.py:50-101 | allow-listing more never makes a clean status unclean |
| HostExecution.ExecutionState.constructor | host.py:84-133 | a new state has the declared defaults |
| HostExecution.SoftwareFactoryHost.constructor | host.py:830-837 | a new Host has no state and empty counters |
| HostExecution.SoftwareFactoryHost.ResetRequestState | host.py:839-842 | clears rejected calls and test attempts and drops the state |
| HostExecution.SoftwareFactoryHost.BeginRequest | host.py:844-851 | a request starts with a fresh state; rejected calls and test attempts stay |
| HostExecution.SoftwareFactoryHost.ValidateCallAgainstState | host.py:1127-1281 | the guard refuses with the code's reason in the code's order, or lets the call through |
| HostExecution.ExecutionState.CheckUpdatePaths | host.py:1220-1237 | the loop over the files of a repair: the first that may not be written decides |
| HostExecution.SoftwareFactoryHost.EnforceTestRetryLimit | host.py:1635-1655 | stops the fourth test run of a project and marks the state, else counts the attempt |
| HostExecution.SoftwareFactoryHost.UpdateExecutionState | host.py:1345-1522 | the new state is the specified one, field by field; HostMeaning says which result sets each mark |
| HostExecution.ExecutionState.UpdateAfterTests | host.py:1447-1489 | effect of a test result on progress, repair and ending |
| HostExecution.ExecutionState.UpdateAfterRead | host.py:1416-1423 | effect of a read on the repair phase |
| HostExecution.SoftwareFactoryHost.HandleFunctionCall | host.py:969-1108 | the whole call: refusals, counting, approval, client, update, and which call reached a client |
| HostRuns.StageOrder | host.py:240-292 | in every guided run tests executed implies environment prepared implies framework detected implies project known and workspace inspected, and for create requests tasks and analysis |
| HostRuns.AtMostTwoFixes | host.py:889-891 | in every guided run the update calls that succeed at their client are exactly those the counter counts, and at most MAX_REPAIR_ATTEMPTS, through every phase reset |
| HostRuns.GuidedRunInvariant | host.py:844-896 | the invariant behind both, kept by every turn of a guided run, several calls per round included |
| HostRuns.UnguidedOrderBreaks | host.py:969-1108 | a concrete unguided call that breaks the stage order |
| HostRuns.SuccessAdvances | host.py:240-277 | a successful result of the action asked for leads to the named next stage, strictly forward |
| HostRuns.RepairAdvances | host.py:451-458 | in a repair a successful result of the expected tool moves the phase on or ends with passing tests |
| HostRuns.FilesLetThrough | host.py:1220-1237 | the guard lets a list of files through exactly when each one may be written |
| HostRuns.RepairWritesOnlyFailingTests | host.py:1203-1237 | a fix that is let through writes only known failing test files of the project under review |
| HostRuns.TestRunsBounded | host.py:1635-1655 | in every run run_tests reaches its client at most MAX_TEST_ATTEMPTS times per project name between resets, even if the state is replaced in between |
| HostRuns.ReachedWasAllowed | host.py:1028-1077 | nothing sensitive reaches a client unapproved in prompt mode, and no rejected call does |
| HostRuns.TurnedDownIsRemembered | host.py:1048-1077 | a call the user turns down reaches nobody, ends the request and is remembered with its tool |
| HostRuns.RejectedNeverReached | host.py:1028-1034 | a remembered call never reaches its client later in the run |
| HostRuns.SensitiveLogExact | host.py:1355-1357 | the log of sensitive tools is exactly the sensitive calls that reached a client, in order |
| HostMeaning.NextActionIff | host.py:240-277 | each next action if and only if, on the marks of the state |
| HostMeaning.OfferedIff | host.py:280-293 | which tool is offered, in a repair the one its phase asks for |
| HostMeaning.ReviewEndsIffMissing | host.py:1387-1404 | a review with a named project is ended by a listing if and only if the name is not among the directories; if it is, framework detection is next |
| HostMeaning.CreateGoesOnAfterListing | host.py:1387-1404 | a request to create is never ended by one: it goes on with the project listed, or creates it |
| HostMeaning.PlanningMarks | host.py:1359-1365 | which result sets each planning mark, and that none clears one |
| HostMeaning.ProjectMarks | host.py:1387-1415 | which result records a created and which an existing project |
| HostMeaning.NameRecorded | host.py:1387-1415 | the name recorded with it |
| HostMeaning.EnvironmentMarks | host.py:1490-1503 | the last preparation decides whether the environment is prepared |
| HostMeaning.TestMarks | host.py:1447-1449 | the last run decides whether the tests passed |
| HostMeaning.InfrastructureMark | host.py:1367-1522 | which results say that the test infrastructure failed, if and only if |
| HostMeaning.RetriesUsedUp | host.py:1468-1478 | the retries are used up exactly by a test failure after the last fix |
| HostMeaning.TerminalMark | host.py:1345-1522 | the terminal status every result leaves, the last reason first |
| HostMeaning.ReadMoves | host.py:1416-1423 | what a read records and where it moves the repair |
| HostMeaning.FixMoves | host.py:1424-1439 | a fix counts when it was due and succeeded; what it wrote is recorded in any case |
| HostMeaning.RunMoves | host.py:1447-1489 | what a test run does to phase, counters and failing files |
| HostMeaning.NoTestsCollectedStuck | host.py:1460-1467 | a run that collected no tests does not end the request, and every later call is refused |
| HostMeaning.RepairLetsThrough | host.py:1167-1248 | a repair lets a call through if and only if it is the one its phase asks for, on the right file and project |
| HostMeaning.LetThroughIff | host.py:1127-1281 | the guard lets a call through if and only if: steps once, nothing after a broken infrastructure, repairs in their order, a project once and under its name |
| HostMeaning.EarlyReasons | host.py:1127-1162 | the reason of a refusal by the checks every call passes first, if and only if |
| HostMeaning.RepairReasons | host.py:1163-1248 | by the checks of a repair |
| HostMeaning.CreateReasons | host.py:1249-1280 | and by those on a new project, in their order |
| HostMeaning.ReachesIff | host.py:969-1108 | a call reaches its client if and only if nothing the Host knows speaks against it and the user, where asked, says yes |
| HostMeaning.ReachedLeaves | host.py:1079-1087 | what it leaves: the attempt counted, its result in the state, the rejections as they were |
| HostMeaning.TurnedAwayLeaves | host.py:1028-1046 | a call turned away changes nothing, but for the fourth test run, which ends the request |
| HostMeaning.NoConsentLeaves | host.py:1048-1077 | a refusal is remembered with call and tool, and the attempt stays counted |
| HostMeaning.ReconciledSuccess | host.py:1283-1343 | putting results straight changes whether one succeeded only for a timed-out test run |
| ToolExecutor.GraphValuesFromExecution | tool_executor.py:59-69 | the loop over the graph's keys fills the dictionary as specified |
| ToolExecutor.RealDeclarations | host.py:84-133 | the declared fields and defaults of ExecutionState, its third set-valued field rejected_tools included, meet what the results below ask of the two declarations |
| ToolExecutor.MergeGivesPostState | tool_executor.py:194-195 | merging the updates gives the written value on every written key and touches no other |
| ToolExecutor.PostStateOnSharedKeys | tool_executor.py:48-69 | on a shared key that value is the Host's, sets as sorted lists, a cancelled request ending as user_cancelled |
| ToolExecutor.NoUpdatesIffCanonical | tool_executor.py:48-69 | an idle call yields no updates if and only if every shared key is present or defaults to None, the repair lists are increasing, and a cancelled state says so |
| ToolExecutor.SecondRoundTripIdle | tool_executor.py:135-195 | one idle round trip makes the state canonical: a second changes nothing |
| CiEligibility.ShaIsNormal | api/services/git_store.py:82-87 | normalising a commit id leaves exactly the 40 to 64 digit hexadecimal ids alone |
| CiEligibility.EligibleExactly | api/services/ci_service.py:328-407 | a required policy is satisfied exactly by a finished, accepted commit run of the commit asked for |
| CiEligibility.EligibleCommit | api/services/ci_service.py:328-407 | eligible under a required policy means source, target and request are one commit; otherwise there is no source |
| CiService.LatestCompletedRunForCommit | api/services/ci_store.py:297-314 | the loop over the runs, newest first, gives the run LatestIsFirst characterises |
| CiService.LatestIsFirst | api/services/ci_store.py:297-314 | the newest completed run of the commit: one with none before it, and none exactly when there is none |
| CiService.RunsAreWritten | api/services/ci_service.py:1151-1198 | whatever is asked for and whatever Git prints, a run in commit mode validated its source commit, the one asked for if any |
| CiService.ValidatesIff | api/services/ci_service.py:1151-1198 | a run is stored unless it raised or was asked for something that is no commit id; it validates the commit asked for, or the head of a clean tree, and nothing else |
| CiService.StoreIsWritten | api/services/ci_service.py:678-850 | so does every run of a store that any sequence of calls has built |
| CiService.VerdictNamesCommit | api/services/ci_service.py:1235-1249 | under a required policy a favourable verdict names the commit asked for, letter by letter, and a stored run accepted it |
| CiService.FreshRunDecides | api/services/ci_service.py:678-850 | a run that completes decides alone: the next verdict on its commit is favourable exactly when it accepted it |
| CiPipeline.StepTrichotomy | graph/builder.py:326-519 | a CI step ends in exactly one of passed and eligible, ended, or repair pending with one more attempt within the limit; CiOutcomes says which answers lead where |
| CiPipeline.StepAttempts | graph/builder.py:450-490 | only the pending outcome counts an attempt, strictly lowering what is left |
| CiPipeline.RejectionsBounded | graph/builder.py:410-519 | a run sees at most one repairable rejection more than the attempts it has left |
| CiPipeline.RejectionCounts | graph/builder.py:450-490 | a repairable rejection counts an attempt or, at the limit, ends the run as ci_failed; the converse is RepairPendingIff |
| CiPipeline.LineageBounded | graph/builder.py:355-367 | in every run, for a limit of at least one, the lineage never exceeds it |
| CiPipeline.LineageGrowsAtZero | graph/builder.py:451-471 | for a limit of zero the repairable rejection that ends the request adds an entry to a lineage of any length |
| CiPipeline.LineageTiesCommits | graph/builder.py:355-367 | a new lineage entry ties the rejected commit and run to the validated commit, run and decision that followed |
| CiPipeline.EligibleStepIdempotent | graph/builder.py:353-381 | repeating the step at an eligible commit changes nothing |
| CiPipeline.StepExactIff | graph/builder.py:340-519 | whatever the store and the pipeline answer, a step keeps promotion exact if and only if the policy is required, or there is no project or commit to ask about |
| CiPipeline.NotRequiredInexact | graph/builder.py:353-381 | with CI not required any commit is eligible at once with no validated commit recorded: the step in isolation, which the supervisor then never offers |
| CiOutcomes.CandidateIs | graph/builder.py:340-344 | the commit asked about is the repair commit, without one the developer's, without one the head |
| CiOutcomes.RepairPendingIff | graph/builder.py:410-519 | a repair is left pending if and only if the run was rejected as repairable, repairs are enabled and attempts are left |
| CiOutcomes.RejectionEndings | graph/builder.py:430-471 | how every other rejection ends the run, and that none of them counts an attempt |
| CiOutcomes.TerminalIff | graph/builder.py:326-519 | which answers leave no terminal status, and which a failed infrastructure |
| CiOutcomes.EligibleIff | graph/builder.py:353-519 | which answers leave the commit eligible |
| CiOutcomes.VerdictRecorded | graph/builder.py:367-381 | the commit, run and decision recorded are those of the verdict |
| CiOutcomes.RunRecorded | graph/builder.py:410-519 | or those of the run |
| CiOutcomes.ReasonGiven | graph/builder.py:430-507 | the failure type of every branch |
| CiOutcomes.PassEndsRepair | graph/builder.py:376-380 | a pass marks the repair it followed, and no other, as having worked |
| CiOutcomes.LineageGrowsIff | graph/builder.py:355-471 | the lineage gains an entry if and only if a verdict ends a repair under way or the attempts are used up |
| SupervisorGuards.CiOfferedIff | graph/supervisor/guards.py:160-212 | CI is offered exactly for a finished commit with passing tests, where the graph demands CI and the candidate has no accepted, eligible validation |
| SupervisorGuards.PassedEndsValidated | graph/supervisor/guards.py:184-212 | with Git on, passing tests lead to promotion or to the end only with the commit made and, where CI is demanded, validated |
| SupervisorGuards.SupervisorDetermined | graph/supervisor/service.py:232-300 | outside a waiting approval exactly one target is allowed and taken, whatever the model answers and the development switch says; only a detected loop ends the request instead |
| SupervisorGuards.GraphImpliesService | graph/builder.py:199-202 | where the graph demands CI, so does the service's policy |
| SupervisorGuards.SettingsAgreeIff | api/services/ci_service.py:136-146 | the exact texts of CI_PROMOTION_REQUIRED that the graph and the service read alike |
| SupervisorGuards.ServiceAloneRequires | api/services/ci_service.py:136-146 | set to 1 the service demands CI and the graph does not |
| SupervisorGuards.CommitsAfterRejection | graph/supervisor/guards.py:184-212 | a required promotion that was turned down sends a finished workflow back to Git |
| HandoffMeaning.PlanningIff | graph/supervisor/guards.py:209-223 | planning is offered if and only if the request is no review, goes on, and has no valid plan but attempts left |
| HandoffMeaning.InspectIff | graph/supervisor/guards.py:209-225 | the workspace is inspected once planning is done, in a review at once |
| HandoffMeaning.TestingIff | graph/supervisor/guards.py:227-248 | testing is offered if and only if the environment is prepared, or tests failed with repairs left |
| HandoffMeaning.ImplementationIff | graph/supervisor/guards.py:227-254 | implementation only while there is neither an environment nor a test run, with attempts left |
| HandoffMeaning.PromotionIff | graph/supervisor/guards.py:189-200 | promotion is offered if and only if the tests passed, the commit is made and its verdict in, and a promotion is due |
| HandoffMeaning.GitIff | graph/supervisor/guards.py:184-229 | Git for a missing branch, a commit still to make, and what a settled commit leaves to do, and for nothing else |
| HandoffMeaning.FinalizeIff | graph/supervisor/guards.py:184-254 | when the request is ended |
| HandoffMeaning.MandatoryIff | graph/supervisor/guards.py:257-273 | a handoff is mandatory for a request that has ended, for the only target that goes on and for the end alone, and never over an approval |
| CommitProtocol.GitCommitStateUpdates | graph/git_workflow.py:248-303 | the method with its history scan computes the state after a commit result |
| CommitProtocol.HistoryKeepsDistinct | graph/git_workflow.py:257-262 | the history keeps its entries, gains the commit, and never holds one twice |
| CommitProtocol.CommitPlaced | graph/git_workflow.py:284-294 | every commit becomes the head, takes its phase's place and ends the approval it waited for |
| CommitProtocol.NotAdvancedEnds | graph/git_workflow.py:264-271 | a repair commit that is the rejected commit ends the request as ci_failed with the repair failed, in a recovery too, and the verdict stands |
| CommitProtocol.AdvancedRuns | graph/git_workflow.py:272-283 | any other repair commit keeps the repair running on it, with no verdict yet |
| CommitProtocol.ImplementationLeaves | graph/git_workflow.py:284-302 | an implementation commit touches neither repair nor verdict |
| CommitProtocol.RequiredPromotionOffered | graph/builder.py:206-279 | a required promotion is offered as soon as the commit is made and its verdict in, without a setting of its own |
| CommitProtocol.CommitIdempotent | graph/git_workflow.py:248-303 | applying the same result again changes nothing, recovery after a normal application included |
| CommitProtocol.ImplementationCommitExactIff | graph/git_workflow.py:284-294 | an implementation commit keeps promotion exact if and only if promotion is not allowed, a repair commit stands, or it is the validated one |
| CommitProtocol.RepairCommitExactIff | graph/git_workflow.py:264-283 | a repair commit, named or not, keeps it exact if and only if it is fresh, promotion is not allowed, or what is then the candidate is the validated one |
| CommitProtocol.HeadMovedExactIff | graph/git_workflow.py:381-389 | a head moved by a merge or by workspace preparation keeps it exact if and only if promotion is not allowed, the workflow has a commit of its own, or the new head is the validated one |
| CommitProtocol.ExactShaInEveryRun | graph/builder.py:340-381 | for every deployment and every run of CI steps, commits, merges, moved heads, reconciliations, replays and whatever leaves commits and CI alone: promotion is exact at every state if and only if every action meets its guard, and CI steps need none |
| CommitProtocol.HistoryNeverRepeats | graph/git_workflow.py:257-262 | no run records a commit twice |
| CommitProtocol.UnguardedCommitBreaks | graph/git_workflow.py:284-294 | every run of one implementation commit, other than the validated one, on an eligible state ends inexact |
| CommitProtocol.UnseenHeadBreaks | api/routes/ci.py:154-180 | from every exact state, reconciling the service's own accepted run of any head but the candidate ends inexact |
| CiReconciliation.BuildCiSuccessReconciliation | graph/ci_reconciliation.py:49-141 | the method that grows the updates step by step computes the reconciliation |
| CiReconciliation.ReconcileFixpoint | graph/ci_reconciliation.py:49-141 | reconciling again with the same run asks only for what is there and finds no stale interrupt |
| CiReconciliation.OnlyStaleInterruptCleared | graph/ci_reconciliation.py:35-141 | pending fields change only for the stale CI-repair interrupt; tests pass anew only on a passing durable summary; on the fields this is ApplicableIff, OthersKept and RepairForgotten |
| CiReconciliation.ReconciledExactIff | graph/ci_reconciliation.py:56-90 | after an applied reconciliation promotion is exact if and only if the head is the candidate |
| CiReconciliation.OtherInterruptsSurvive | graph/persistence_service.py:1180-1217 | the service consumes a waiting interrupt only when it is the stale one, which InterruptConsumedIff spells out |
| CiReconciliation.ServiceSettles | graph/persistence_service.py:1171-1217 | once its state is in place the service writes nothing for that run, wherever the graph stands: it leaves it alone, or lets a graph waiting at the supervisor go on |
| CiReconciliation.ApplicableIff | graph/ci_reconciliation.py:35-75 | applicable if and only if the run passed and was accepted for this very head; it clears the interrupt if and only if a test run waits on behalf of a CI repair under way |
| CiReconciliation.CiWritten | graph/ci_reconciliation.py:78-90 | the CI fields written are those of the run |
| CiReconciliation.OthersKept | graph/ci_reconciliation.py:77-90 | without a waiting repair, approval, repair, failure, tests and terminal status stay as they were |
| CiReconciliation.RepairForgotten | graph/ci_reconciliation.py:91-124 | with one, approval and repair are gone, attempts and lineage stay, and a failure of CI is forgotten |
| CiReconciliation.TestsRestored | graph/ci_reconciliation.py:125-134 | the tests pass again exactly when the summary of the last run says so |
| CiReconciliation.InterruptConsumedIff | graph/persistence_service.py:1171-1184 | the service goes on over a waiting interrupt if and only if the run was accepted for this head and the interrupt is that of a CI repair: a test run waiting, a repair pending or running from a run, chosen by the supervisor or caused by CI |
| CiReconciliation.UninterruptedActions | graph/persistence_service.py:1186-1217 | without an interrupt it writes what is missing, and otherwise only wakes a graph at the supervisor |
| CiReconciliation.SummaryPassesIff | graph/ci_reconciliation.py:8-32 | a summary passes if and only if it mentions a positive number of passed tests and neither failures nor errors, as the patterns read it |
| ApprovalGraph.ExecuteFollowsGrant | graph/nodes.py:339-344 | every entry to an execute node directly follows an approval granted for that same request, which was waiting; no replay, fork or written result leads there |
| ApprovalGraph.ExecutionsWithinGrants | graph/nodes.py:394-475 | from any checkpoint that is not an execute node, executions of a request never exceed grants for it |
| ApprovalGraph.SensitiveExecutionsApproved | graph/persistence_service.py:901-1217 | the same for every run from the start, with nodes failing and started over, reconciled and recovered results written into the graph, replays and forks |
| ApprovalGraph.ReplayAsksAgain | graph/persistence_service.py:851-881 | from a checkpoint the replay policy lets through, every execution is approved again during the replay |
| ApprovalGraph.ReplayFromExecuteUnapproved | graph/persistence_service.py:868-872 | the policy refuses execute nodes, and a replay from one would execute with no grant |
| ApprovalWalks.GrantLeads | graph/routers.py:35-49 | a granted request goes to the node that performs its operation and nowhere else |
| ApprovalWalks.GrantPossible | graph/nodes.py:432-449 | and every request that waits can be granted |
| ApprovalWalks.RefusalLeads | graph/nodes.py:423-475 | any other answer leads to the operation's rejection, marks the request cancelled and executes nothing |
| ApprovalWalks.ExecutionGoesOn | graph/nodes.py:478-500 | a granted operation is carried out and goes on exactly to the nodes behind it, with no request left |
| ApprovalWalks.EdgesIff | graph/builder.py:785-858 | the edges of parent graph and subgraphs, read from their targets: into each node exactly from where they lead there |
| ApprovalWalks.ReplayableIff | graph/persistence_service.py:851-881 | what may be replayed: thirteen nodes without a sensitive effect, and a test run that waits for approval |
| ApprovalWalks.ForksIff | graph/persistence_service.py:984-1157 | where a fork leads from each node it may start at, and that of the approval it drops a pending merge only |
| PromotionRuns.EveryMergeValidated | graph/supervisor/guards.py:184-212 | where the graph demands CI, in every run of nodes, supervisor decisions, approvals, commits, CI steps, written results, replays and forks the candidate is validated, eligible and accepted from the offer of a promotion to its merge, unless a run of another head is reconciled between preparation and interrupt |
| PromotionRuns.UnseenHeadMerges | graph/supervisor/service.py:232-237 | in that moment it does happen: four moves lead to a merge whose candidate the verdict does not cover |
| PromotionRuns.WritersIff | graph/builder.py:326-519 | each change of commits and CI belongs to one node |
| PromotionRuns.DecidesIff | graph/supervisor/service.py:232-300 | at a visit the supervisor decides one thing only: the target its guards leave, the end on a loop, nothing new over an approval |
| ApprovalService.WorkflowPersistenceService.ResolveApproval | graph/persistence_service.py:1292-1344 | the two looks at the head, the expected reference, the key and a failing graph decide as specified, and the caller is told what stood in the way; DecisionDelivered and OthersRefused say what that comes to |
| ApprovalService.OneResumePerKey | graph/persistence_service.py:1308-1340 | at most one resume completes per thread, branch, checkpoint, operation and tool |
| ApprovalService.ResumesTargetHead | graph/persistence_service.py:1248-1304 | every resume targets the head both looks agree on and the caller accepts |
| ApprovalService.StaleCallerNeverResumes | graph/persistence_service.py:1300-1302 | an out-of-date expected reference never resumes the graph |
| ApprovalService.MovedHeadNeverResumes | graph/persistence_service.py:1303-1305 | nor does a head that moves between the two looks |
| ApprovalService.HeadIff | graph/persistence_service.py:1248-1286 | the head of a waiting thread: its checkpoint, and operation and tool from the state, else the interrupt, else the operation's default |
| ApprovalService.DecisionDelivered | graph/persistence_service.py:1292-1344 | a decision on the head both looks show, not resolved before, reaches the graph, a rejection as well as an approval; without a failing graph it completes and is remembered |
| ApprovalService.OthersRefused | graph/persistence_service.py:1292-1320 | every other call changes nothing and is told why |
| ApprovalService.FirstDecisionStands | graph/persistence_service.py:1305-1340 | of all calls that decide a key the first stands, whatever is called before, in between or after |

## Left out

- MCP transport, subprocesses, model calls, LangGraph internals, SQLite, HTTP routes and event streaming: their results are arbitrary answers in the steps above.
- Floating-point error, Unicode beyond ASCII and regular expressions other than those of the dependency names, commit ids and test summaries.
- Aggregating records into group metrics, aggregate rates and deltas of rollouts, fingerprints, and the scoring modules (agent performance, attribution, calibration): sums and one-branch classifications.
- The `failure_*` texts, versions, commands, test output and repair evidence of the Host state: reported, never tested by a decision that is modelled; the failure texts written by an argument-schema error are among them.
- The fifteen-round limit of the Host's loop, which only ends runs earlier.
- `validate_call_against_state` raising on a path that cannot be made relative: it ends the call there and is a refusal here.
- Python's limit of 4300 digits for `int()` in a rollout stage.
- Status `running` of a CI run and everything it stores besides revision, status, decision and gate summary; two runs with one random id.
- The same file object twice in one list: `normalize_dependency_file` would rewrite both places, the model rewrites the first.
- The order of the three lists `classify_dirty_paths` returns (they are sorted sets there, sets here), and the file system itself, which is a parameter.
- `active_experiments` and `active_rollouts` in the portfolio report, which list descriptors of the visible stored items.
- Planning: plan quality, risk scores and fingerprints. The planning-risk approval is part of the approval graph, its policy is a free choice.
- What the Git service checks on its own when it prepares and carries out a merge (api/services/git_service.py:1453-1456): the claims are about what the graph lets through.
- Preparing a commit or promotion through Git tools (`prepare_git_workflow_node`, `prepare_git_promotion_node`): in the approval graph they may ask for approval or not; which paths they may stage is `GitDirtyPaths`.
- In the approval graph any target of the supervisor may follow at any time, so those claims do not depend on its guards. How it detects a loop is a free answer, and its development probes (forced loop, forced answers of the model) are not modelled.
- The values a fork may edit (`validate_fork_updates`): none of them is a commit, a CI field or part of an approval.
- Whether a crashed Git operation was carried out (`detect_post_approval_recovery`): the approval graph lets a result be written at any point.
- Two approvals interleaving inside one process: the service is modelled call by call, with the graph free to move between its two looks.
