/** The Host's execution state, what it lets through and how tool results change it (host.py). */
module HostState {
  import opened Prelude

  const MAX_REPAIR_ATTEMPTS: nat := 2
  const MAX_TEST_ATTEMPTS: nat := 3

  datatype Tool =
    | AnalyzeRequirement
    | CreateTasks
    | ListFiles
    | CreateProject
    | ReadFile
    | UpdateFiles
    | DetectFramework
    | PrepareEnvironment
    | RunTests
    | GitInit
    | OtherTool(server: string, name: string)

  predicate OfTestingServer(t: Tool) {
    t.DetectFramework? || t.PrepareEnvironment? || t.RunTests? || (t.OtherTool? && t.server == "testing")
  }

  datatype Intent = CreateIntent | ReviewIntent

  datatype Phase = NotStarted | ReadFailingTest | ReadRelatedSource | ApplyFix | RerunTests | Repaired

  datatype Terminal =
    | InfrastructureFailed
    | RejectedByUser
    | RetryLimitReached
    | ProjectNotFound
    | TestsFailed

  /** How far the request has got. */
  datatype Progress = Progress(
    analysisCompleted: bool,
    tasksCreated: bool,
    workspaceInspected: bool,
    projectCreated: bool,
    projectExists: bool,
    createdName: Option<string>,
    framework: Option<string>,
    environmentPrepared: bool,
    dependenciesInstalled: bool,
    testsExecuted: bool,
    testsPassed: bool)

  datatype Repair = Repair(
    phase: Phase,
    attempts: nat,
    failingTestFiles: seq<string>,
    filesRead: set<string>,
    filesUpdated: set<string>)

  /** What can end the request. */
  datatype Ending = Ending(
    testInfrastructureFailed: bool,
    retryLimitReached: bool,
    userCancelled: bool,
    terminal: Option<Terminal>)

  datatype Log = Log(sensitiveExecuted: seq<Tool>, rejectedTools: set<Tool>, lastTool: Option<Tool>)

  /** The fields of ExecutionState, grouped. */
  datatype State = State(
    intent: Intent,
    requestedName: Option<string>,
    progress: Progress,
    repair: Repair,
    ending: Ending,
    log: Log)

  const NO_PROGRESS: Progress := Progress(false, false, false, false, false, None, None, false, false, false, false)
  const NO_REPAIR: Repair := Repair(NotStarted, 0, [], {}, {})
  const NO_ENDING: Ending := Ending(false, false, false, None)
  const NO_LOG: Log := Log([], {}, None)

  /** The state run_openai_loop starts from. */
  function Fresh(intent: Intent, requestedName: Option<string>): State {
    State(intent, requestedName, NO_PROGRESS, NO_REPAIR, NO_ENDING, NO_LOG)
  }

  /** Stands in where there is no execution state. */
  const NO_STATE: State := Fresh(CreateIntent, None)

  // ---------------------------------------------------------------- what comes next

  predicate IsTerminalFailure(s: State) {
    s.ending.testInfrastructureFailed || s.ending.retryLimitReached || s.ending.userCancelled || s.ending.terminal == Some(ProjectNotFound)
  }

  predicate IsTerminal(s: State) {
    IsTerminalFailure(s) || s.progress.testsPassed
  }

  predicate ProjectKnown(p: Progress) {
    p.projectCreated || p.projectExists
  }

  datatype Action = Finalize | Use(tool: Tool) | FixFailedTests

  function NextReview(p: Progress, phase: Phase): Action {
    if !p.workspaceInspected then Use(ListFiles)
    else if !ProjectKnown(p) then Finalize
    else if p.framework.None? then Use(DetectFramework)
    else if !p.environmentPrepared then Use(PrepareEnvironment)
    else if !p.testsExecuted || phase.RerunTests? then Use(RunTests)
    else FixFailedTests
  }

  function NextCreate(p: Progress): Action {
    if !p.analysisCompleted then Use(AnalyzeRequirement)
    else if !p.tasksCreated then Use(CreateTasks)
    else if !p.workspaceInspected then Use(ListFiles)
    else if !ProjectKnown(p) then Use(CreateProject)
    else if p.framework.None? then Use(DetectFramework)
    else if !p.environmentPrepared then Use(PrepareEnvironment)
    else if !p.testsExecuted then Use(RunTests)
    else FixFailedTests
  }

  /** The source asks again whether the tests passed or their infrastructure failed; a terminal state never gets that far. */
  function DetermineNextAction(s: State): Action {
    if IsTerminal(s) then Finalize
    else if s.intent.ReviewIntent? then NextReview(s.progress, s.repair.phase)
    else NextCreate(s.progress)
  }

  function RepairTool(s: State): Option<Tool> {
    match s.repair.phase
    case NotStarted => Some(ReadFile)
    case ReadFailingTest => Some(ReadFile)
    case ReadRelatedSource => Some(ReadFile)
    case ApplyFix => Some(UpdateFiles)
    case RerunTests => Some(RunTests)
    case Repaired => None
  }

  /** The one tool get_allowed_tools offers, when the registry has it. */
  function AllowedTool(s: State, registry: set<Tool>): Option<Tool> {
    var offered := match DetermineNextAction(s)
      case Finalize => None
      case Use(t) => Some(t)
      case FixFailedTests => RepairTool(s);
    if offered.Some? && offered.value in registry then offered else None
  }

  // ---------------------------------------------------------------- calls

  /** An entry of a files argument: a dictionary with a path, or something else. */
  datatype FileArgument = FileArgument(path: string) | NotAFile

  /** Arguments that passed the tool's schema; files is None when it is not a list. */
  datatype Call = Call(tool: Tool, sensitive: bool, projectName: Option<string>, path: string, files: Option<seq<FileArgument>>)

  /** The path and text helpers the decisions go through. */
  datatype Helpers = Helpers(
    relative: (string, string) -> Option<string>,
    clean: string -> string,
    inside: string -> bool,
    infer: State -> Option<string>,
    key: Call -> string,
    dependenciesRefused: Call -> bool)

  /** created_project_name or requested_project_name */
  function ProjectName(s: State): Option<string> {
    if Truthy(s.progress.createdName).Some? then s.progress.createdName else Truthy(s.requestedName)
  }

  predicate ReadingTest(s: State) {
    s.repair.phase.NotStarted? || s.repair.phase.ReadFailingTest?
  }

  datatype Refusal =
    | StepAlreadyCompleted
    | StoppedAfterInfrastructureFailure
    | EnvironmentAlreadyPrepared
    | RepairStepNotAllowed
    | MissingFailingTestFile
    | ReadPathNotAllowed
    | ArgumentConflict
    | InvalidArguments
    | UpdatePathNotAllowed
    | ProjectAlreadyThere
    | DependencyPolicyViolation

  predicate StopsAfterInfrastructureFailure(t: Tool) {
    t.ListFiles? || t.ReadFile? || t.UpdateFiles? || t.DetectFramework? || t.PrepareEnvironment? || t.RunTests?
  }

  /** The file a repair step must read; None when the source asks for none. */
  function ExpectedRead(helpers: Helpers, s: State): Option<string>
    requires ReadingTest(s) ==> s.repair.failingTestFiles != []
  {
    if ReadingTest(s) then Truthy(Some(s.repair.failingTestFiles[0])) else Truthy(helpers.infer(s))
  }

  function RefusedRead(helpers: Helpers, s: State, call: Call): Option<Refusal> {
    if ReadingTest(s) && s.repair.failingTestFiles == [] then Some(MissingFailingTestFile)
    else if ExpectedRead(helpers, s).Some?
            && helpers.relative(ProjectName(s).GetOr(""), ExpectedRead(helpers, s).value) != Some(helpers.clean(call.path))
    then Some(ReadPathNotAllowed)
    else None
  }

  function CleanPath(helpers: Helpers, f: FileArgument): string {
    if f.FileArgument? then helpers.clean(f.path) else ""
  }

  /** The first file of the list that may not be written decides. */
  function RefusedFiles(helpers: Helpers, allowed: seq<string>, files: seq<FileArgument>): Option<Refusal> {
    if files == [] then None
    else
      var path := CleanPath(helpers, files[0]);
      if path == "" || !helpers.inside(path) then Some(InvalidArguments)
      else if allowed != [] && path !in allowed then Some(UpdatePathNotAllowed)
      else RefusedFiles(helpers, allowed, files[1..])
  }

  predicate OtherProject(s: State, call: Call) {
    ProjectName(s).Some? && call.projectName != ProjectName(s)
  }

  function RefusedUpdate(helpers: Helpers, s: State, call: Call): Option<Refusal> {
    if OtherProject(s, call) then Some(ArgumentConflict)
    else if call.files.None? || call.files.value == [] then Some(InvalidArguments)
    else RefusedFiles(helpers, s.repair.failingTestFiles, call.files.value)
  }

  /** What a repair in progress refuses. */
  function RefusedRepair(helpers: Helpers, s: State, call: Call): Option<Refusal> {
    if RepairTool(s) != Some(call.tool) then Some(RepairStepNotAllowed)
    else match call.tool
      case ReadFile => RefusedRead(helpers, s, call)
      case UpdateFiles => RefusedUpdate(helpers, s, call)
      case RunTests => if OtherProject(s, call) then Some(ArgumentConflict) else None
      case _ => None
  }

  function RefusedCreate(helpers: Helpers, s: State, call: Call): Option<Refusal> {
    if call.files.None? || call.files.value == [] then Some(InvalidArguments)
    else if Truthy(s.requestedName).Some? && call.projectName != s.requestedName then Some(ArgumentConflict)
    else if ProjectKnown(s.progress) then Some(ProjectAlreadyThere)
    else if helpers.dependenciesRefused(call) then Some(DependencyPolicyViolation)
    else None
  }

  /** validate_call_against_state; a path that cannot be made relative raises there, and is a refusal here. */
  function Refused(helpers: Helpers, s: State, call: Call): Option<Refusal> {
    if (call.tool.AnalyzeRequirement? && s.progress.analysisCompleted) || (call.tool.CreateTasks? && s.progress.tasksCreated)
    then Some(StepAlreadyCompleted)
    else if s.ending.testInfrastructureFailed && StopsAfterInfrastructureFailure(call.tool) then Some(StoppedAfterInfrastructureFailure)
    else if call.tool.PrepareEnvironment? && s.progress.environmentPrepared then Some(EnvironmentAlreadyPrepared)
    else if DetermineNextAction(s).FixFailedTests? && RefusedRepair(helpers, s, call).Some? then RefusedRepair(helpers, s, call)
    else if call.tool.CreateProject? then RefusedCreate(helpers, s, call)
    else None
  }

  // ---------------------------------------------------------------- results

  datatype Status = ProjectAlreadyExists | McpTimeout | OtherStatus

  datatype FailureKind =
    | TestFailure
    | Timeout
    | CreateVenvFailure
    | PipUpgradeFailure
    | DependencyInstallationFailure
    | PipCheckFailure
    | VersionInspectionFailure
    | InvalidExistingEnvironment
    | OtherFailure

  datatype Stage = CreateVenv | UpgradePip | InstallDependencies | PipCheck | InspectVersions | ExistingEnvironment | OtherStage

  /** A non-empty payload: success is None when it is neither true nor false, files are those pytest reported failing. */
  datatype Payload = Payload(
    success: Option<bool>,
    status: Status,
    failureType: FailureKind,
    failureStage: Stage,
    exitCode: Option<int>,
    timedOut: bool,
    projectName: Option<string>,
    path: Option<string>,
    framework: Option<string>,
    directories: Option<seq<string>>,
    failingFiles: seq<string>)

  /** What a client call came back with, a raised exception included; payload is None when absent or empty. */
  datatype ToolResult = ToolResult(isError: bool, saysProjectExists: bool, payload: Option<Payload>)

  function AlreadyExists(name: string): Payload {
    Payload(Some(false), ProjectAlreadyExists, OtherFailure, OtherStage, None, false, Some(name), None, None, None, [])
  }

  function Reconciled(s: State, call: Call, r: ToolResult): ToolResult {
    if call.tool.CreateProject? && r.isError && r.saysProjectExists then
      var name := if Truthy(call.projectName).Some? then call.projectName.value else s.progress.createdName.GetOr("None");
      ToolResult(false, r.saysProjectExists, Some(AlreadyExists(name)))
    else if call.tool.RunTests? && !r.isError && r.payload.Some? && r.payload.value.timedOut then
      r.(payload := Some(r.payload.value.(success := Some(false), status := OtherStatus)))
    else if call.tool.PrepareEnvironment? && !r.isError && r.payload.Some? && r.payload.value.success == Some(false) then
      r.(payload := Some(r.payload.value.(status := OtherStatus)))
    else r
  }

  predicate BusinessSuccess(r: ToolResult) {
    !r.isError && r.payload.Some? && r.payload.value.success == Some(true)
  }

  predicate TimedOutAtTransport(r: ToolResult) {
    r.payload.Some? && r.payload.value.success == Some(false) && r.payload.value.status == McpTimeout
  }

  /** Bookkeeping every result gets. */
  function Recorded(l: Log, call: Call): Log {
    l.(lastTool := Some(call.tool), sensitiveExecuted := if call.sensitive then l.sensitiveExecuted + [call.tool] else l.sensitiveExecuted)
  }

  function TimeoutNoted(e: Ending, t: Tool, r: ToolResult): Ending {
    if !TimedOutAtTransport(r) then e
    else if t.GitInit? then e.(terminal := Some(InfrastructureFailed))
    else if OfTestingServer(t) then e.(terminal := Some(InfrastructureFailed), testInfrastructureFailed := true)
    else e
  }

  /** Whether the listing decides on the requested project, and how. */
  function Listed(s: State, r: ToolResult): Option<bool> {
    var wanted := Truthy(s.requestedName);
    if r.payload.None? || wanted.None? || r.payload.value.directories.None? then None
    else Some(wanted.value in r.payload.value.directories.value)
  }

  function ProgressListed(p: Progress, wanted: Option<string>, listed: Option<bool>, failed: bool): Progress {
    p.(workspaceInspected := p.workspaceInspected || !failed,
       projectExists := p.projectExists || listed == Some(true),
       createdName := if listed == Some(true) then wanted else p.createdName)
  }

  function EndingListed(e: Ending, intent: Intent, listed: Option<bool>): Ending {
    if listed == Some(false) && intent.ReviewIntent? then e.(terminal := Some(ProjectNotFound)) else e
  }

  function AfterList(s: State, r: ToolResult): State {
    s.(progress := ProgressListed(s.progress, Truthy(s.requestedName), Listed(s, r), r.isError),
       ending := EndingListed(s.ending, s.intent, Listed(s, r)))
  }

  function NameOf(call: Call, p: Payload): string {
    if Truthy(p.projectName).Some? then p.projectName.value else call.projectName.GetOr("")
  }

  predicate SaysExists(r: ToolResult) {
    !r.isError && r.payload.Some? && r.payload.value.status.ProjectAlreadyExists?
  }

  function AfterCreate(p: Progress, call: Call, r: ToolResult): Progress {
    p.(projectExists := p.projectExists || SaysExists(r),
       projectCreated := p.projectCreated || (!SaysExists(r) && BusinessSuccess(r)),
       createdName := if SaysExists(r) || BusinessSuccess(r) then Some(NameOf(call, r.payload.value)) else p.createdName)
  }

  function PathRead(helpers: Helpers, call: Call, p: Payload): string {
    helpers.clean(Truthy(p.path).GetOr(call.path))
  }

  /** Any payload moves the repair on, a failed read included. */
  function AfterRead(helpers: Helpers, s: State, call: Call, r: ToolResult): Repair {
    if r.payload.None? then s.repair
    else
      var seen := s.repair.(filesRead := s.repair.filesRead + {PathRead(helpers, call, r.payload.value)});
      match s.repair.phase
      case NotStarted => seen.(phase := if helpers.infer(s.(repair := seen)).Some? then ReadRelatedSource else ApplyFix)
      case ReadFailingTest => seen.(phase := if helpers.infer(s.(repair := seen)).Some? then ReadRelatedSource else ApplyFix)
      case ReadRelatedSource => seen.(phase := ApplyFix)
      case _ => s.repair
  }

  function Written(helpers: Helpers, files: Option<seq<FileArgument>>): set<string> {
    if files.None? then {} else set f | f in files.value && f.FileArgument? :: helpers.clean(f.path)
  }

  function AfterUpdate(helpers: Helpers, p: Repair, call: Call, r: ToolResult): Repair {
    if !BusinessSuccess(r) then p
    else
      var written := p.(filesUpdated := p.filesUpdated + Written(helpers, call.files));
      if p.phase.ApplyFix? then written.(attempts := p.attempts + 1, phase := RerunTests) else written
  }

  function AfterDetect(p: Progress, r: ToolResult): Progress {
    p.(framework := if r.payload.Some? && Truthy(r.payload.value.framework).Some? then r.payload.value.framework else p.framework)
  }

  predicate Passed(r: ToolResult) {
    r.payload.Some? && r.payload.value.success == Some(true)
  }

  /** A repair whose rerun passed is complete. */
  function Judged(p: Repair, passed: bool): Repair {
    if passed && p.phase.RerunTests? then p.(phase := Repaired) else p
  }

  function RepairAfterFailure(p: Repair, payload: Payload): Repair {
    if payload.exitCode == Some(5) then p.(failingTestFiles := [], phase := NotStarted)
    else if !payload.failureType.TestFailure? then p
    else if p.attempts >= MAX_REPAIR_ATTEMPTS then p.(failingTestFiles := payload.failingFiles)
    else p.(failingTestFiles := payload.failingFiles, phase := ReadFailingTest)
  }

  function EndingAfterFailure(e: Ending, attempts: nat, payload: Payload): Ending {
    if payload.exitCode == Some(5) then e.(terminal := Some(TestsFailed))
    else if payload.failureType.TestFailure? && attempts >= MAX_REPAIR_ATTEMPTS
    then e.(retryLimitReached := true, terminal := Some(RetryLimitReached))
    else e
  }

  function RepairAfterRun(p: Repair, payload: Payload, passed: bool): Repair {
    RepairAfterFailure(Judged(p, passed), payload)
  }

  function EndingAfterRun(e: Ending, attempts: nat, payload: Payload): Ending {
    var failed := EndingAfterFailure(e, attempts, payload);
    if payload.timedOut then failed.(testInfrastructureFailed := true) else failed
  }

  function RepairAfterTests(p: Repair, r: ToolResult): Repair {
    if r.payload.None? then p else RepairAfterRun(p, r.payload.value, Passed(r))
  }

  function EndingAfterTests(e: Ending, attempts: nat, r: ToolResult): Ending {
    if r.payload.None? then e else EndingAfterRun(e, attempts, r.payload.value)
  }

  function AfterTests(s: State, r: ToolResult): State {
    s.(progress := s.progress.(testsExecuted := true, testsPassed := Passed(r)),
       repair := RepairAfterTests(s.repair, r),
       ending := EndingAfterTests(s.ending, s.repair.attempts, r))
  }

  predicate EnvironmentBroken(p: Payload) {
    || p.failureType.Timeout? || p.failureType.CreateVenvFailure? || p.failureType.PipUpgradeFailure?
    || p.failureType.DependencyInstallationFailure? || p.failureType.PipCheckFailure?
    || p.failureType.VersionInspectionFailure? || p.failureType.InvalidExistingEnvironment?
    || !p.failureStage.OtherStage?
  }

  function ProgressAfterPrepare(p: Progress, r: ToolResult): Progress {
    p.(environmentPrepared := BusinessSuccess(r), dependenciesInstalled := BusinessSuccess(r))
  }

  function EndingAfterPrepare(e: Ending, r: ToolResult): Ending {
    if !BusinessSuccess(r) && r.payload.Some? && EnvironmentBroken(r.payload.value)
    then e.(testInfrastructureFailed := true, terminal := Some(InfrastructureFailed))
    else e
  }

  function AfterPrepare(s: State, r: ToolResult): State {
    s.(progress := ProgressAfterPrepare(s.progress, r), ending := EndingAfterPrepare(s.ending, r))
  }

  /** What the tool itself changes, once the bookkeeping is done. */
  function Applied(helpers: Helpers, s: State, call: Call, r: ToolResult): State {
    match call.tool
    case AnalyzeRequirement => s.(progress := s.progress.(analysisCompleted := s.progress.analysisCompleted || !r.isError))
    case CreateTasks => s.(progress := s.progress.(tasksCreated := s.progress.tasksCreated || !r.isError))
    case ListFiles => AfterList(s, r)
    case CreateProject => s.(progress := AfterCreate(s.progress, call, r))
    case ReadFile => s.(repair := AfterRead(helpers, s, call, r))
    case UpdateFiles => s.(repair := AfterUpdate(helpers, s.repair, call, r))
    case DetectFramework => s.(progress := AfterDetect(s.progress, r))
    case PrepareEnvironment => AfterPrepare(s, r)
    case RunTests => AfterTests(s, r)
    case _ => s
  }

  function Noted(s: State, call: Call, r: ToolResult): State {
    s.(log := Recorded(s.log, call), ending := TimeoutNoted(s.ending, call.tool, r))
  }

  /** _update_execution_state */
  function Updated(helpers: Helpers, s: State, call: Call, r: ToolResult): State {
    Applied(helpers, Noted(s, call, r), call, r)
  }

  // ---------------------------------------------------------------- one function call

  /** active tells whether there is an execution state; without one the state's value is of no consequence. */
  datatype Host = Host(active: bool, state: State, rejectedCalls: set<string>, testAttempts: map<string, nat>)

  datatype Request = Malformed | UnknownTool | BadArguments | Valid(call: Call)

  datatype ApprovalMode = Prompt | AlreadyApproved

  /** What the outside world answers, should it be asked. */
  datatype Answer = Answer(approved: bool, result: ToolResult)

  datatype Outcome = Outcome(host: Host, reached: Option<Call>)

  /** During a repair the path of a read is made relative to the project; None when it cannot be. */
  function Localized(helpers: Helpers, h: Host, call: Call): Option<Call> {
    if h.active && DetermineNextAction(h.state).FixFailedTests? && call.tool.ReadFile? then
      var path := helpers.relative(ProjectName(h.state).GetOr(""), call.path);
      if path.None? then None else Some(call.(path := path.value))
    else Some(call)
  }

  function Guard(helpers: Helpers, h: Host, call: Call): Option<Refusal> {
    if h.active then Refused(helpers, h.state, call) else None
  }

  function Attempts(h: Host, name: string): nat {
    if name in h.testAttempts then h.testAttempts[name] else 0
  }

  function TestName(call: Call): string {
    call.projectName.GetOr("")
  }

  predicate OverLimit(h: Host, call: Call) {
    call.tool.RunTests? && Attempts(h, TestName(call)) >= MAX_TEST_ATTEMPTS
  }

  function LimitReached(e: Ending): Ending {
    e.(retryLimitReached := true, terminal := Some(RetryLimitReached))
  }

  function Limited(h: Host): Host {
    if h.active then h.(state := h.state.(ending := LimitReached(h.state.ending))) else h
  }

  /** The attempt is counted before anybody is asked for approval. */
  function Counted(h: Host, call: Call): Host {
    if call.tool.RunTests? then h.(testAttempts := h.testAttempts[TestName(call) := Attempts(h, TestName(call)) + 1]) else h
  }

  function TurnedDown(e: Ending): Ending {
    e.(userCancelled := true, terminal := Some(RejectedByUser))
  }

  function Rejected(helpers: Helpers, h: Host, call: Call): Host {
    var remembered := h.(rejectedCalls := h.rejectedCalls + {helpers.key(call)});
    if h.active then
      remembered.(state := h.state.(log := h.state.log.(rejectedTools := h.state.log.rejectedTools + {call.tool}),
                                    ending := TurnedDown(h.state.ending)))
    else remembered
  }

  function Performed(helpers: Helpers, h: Host, call: Call, r: ToolResult): Outcome {
    var updated := if h.active then h.(state := Updated(helpers, h.state, call, Reconciled(h.state, call, r))) else h;
    Outcome(updated, Some(call))
  }

  function AfterApproval(helpers: Helpers, h: Host, call: Call, mode: ApprovalMode, answer: Answer): Outcome {
    if call.sensitive && mode.Prompt? && h.active && call.tool in h.state.log.rejectedTools then Outcome(h, None)
    else if call.sensitive && mode.Prompt? && !answer.approved then Outcome(Rejected(helpers, h, call), None)
    else Performed(helpers, h, call, answer.result)
  }

  function HandleCall(helpers: Helpers, h: Host, call: Call, mode: ApprovalMode, answer: Answer): Outcome {
    if helpers.key(call) in h.rejectedCalls || Guard(helpers, h, call).Some? then Outcome(h, None)
    else if OverLimit(h, call) then Outcome(Limited(h), None)
    else AfterApproval(helpers, Counted(h, call), call, mode, answer)
  }

  /** handle_function_call: the new Host, and the call that reached its client, if one did. */
  function Handle(helpers: Helpers, h: Host, request: Request, mode: ApprovalMode, answer: Answer): Outcome {
    if !request.Valid? then Outcome(h, None)
    else
      var call := Localized(helpers, h, request.call);
      if call.None? then Outcome(h, None) else HandleCall(helpers, h, call.value, mode, answer)
  }
}
