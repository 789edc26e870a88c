/** What the Host's decisions mean on its own fields: every next action, every refusal, every mark a result leaves (host.py). */
module HostMeaning {
  import opened Prelude
  import opened HostState
  import opened HostRuns

  // ---------------------------------------------------------------- the next action

  predicate Ended(s: State) {
    || s.ending.testInfrastructureFailed || s.ending.retryLimitReached || s.ending.userCancelled
    || s.ending.terminal == Some(ProjectNotFound) || s.progress.testsPassed
  }

  /** When each action is the next one. */
  lemma NextActionIff(s: State)
    ensures
      var next, p, create := DetermineNextAction(s), s.progress, s.intent.CreateIntent?;
      var known := p.projectCreated || p.projectExists;
      var listed := !Ended(s) && (create ==> p.analysisCompleted && p.tasksCreated) && p.workspaceInspected;
      && (next == Use(AnalyzeRequirement) <==> !Ended(s) && create && !p.analysisCompleted)
      && (next == Use(CreateTasks) <==> !Ended(s) && create && p.analysisCompleted && !p.tasksCreated)
      && (next == Use(ListFiles) <==> !Ended(s) && (create ==> p.analysisCompleted && p.tasksCreated) && !p.workspaceInspected)
      && (next == Use(CreateProject) <==> listed && create && !known)
      && (next == Finalize <==> Ended(s) || (listed && !create && !known))
      && (next == Use(DetectFramework) <==> listed && known && p.framework.None?)
      && (next == Use(PrepareEnvironment) <==> listed && known && p.framework.Some? && !p.environmentPrepared)
      && (next == Use(RunTests) <==>
            listed && known && p.framework.Some? && p.environmentPrepared && (!p.testsExecuted || (!create && s.repair.phase == RerunTests)))
      && (next == FixFailedTests <==>
            listed && known && p.framework.Some? && p.environmentPrepared && p.testsExecuted && (create || s.repair.phase != RerunTests))
  {
  }

  /** During a repair the tool follows the phase; the rerun is a repair step when creating and a next action of its own in a review. */
  lemma OfferedIff(s: State, registry: set<Tool>, t: Tool)
    ensures
      var next := DetermineNextAction(s);
      AllowedTool(s, registry) == Some(t) <==>
        && t in registry
        && (next == Use(t)
            || (next == FixFailedTests
                && ((t == ReadFile && s.repair.phase in {NotStarted, ReadFailingTest, ReadRelatedSource})
                    || (t == UpdateFiles && s.repair.phase == ApplyFix)
                    || (t == RunTests && s.repair.phase == RerunTests))))
  {
  }

  // ---------------------------------------------------------------- listing

  /** A review with a named project ends on a listing if and only if the name is not among the directories. */
  lemma ReviewEndsIffMissing(helpers: Helpers, s: State, call: Call, r: ToolResult, name: string, directories: seq<string>)
    requires s.intent.ReviewIntent? && !Ended(s) && s.requestedName == Some(name) && name != ""
    requires call.tool == ListFiles && r.payload.Some? && r.payload.value.directories == Some(directories)
    ensures
      var after := Updated(helpers, s, call, r);
      && (after.ending.terminal == Some(ProjectNotFound) <==> name !in directories)
      && (Ended(after) <==> name !in directories)
      && (name !in directories ==> DetermineNextAction(after) == Finalize)
      && (name in directories && !r.isError && s.progress.framework.None? ==> DetermineNextAction(after) == Use(DetectFramework))
  {
  }

  /** A request to create is never ended by a listing: it goes on with the project listed, or creates it. */
  lemma CreateGoesOnAfterListing(helpers: Helpers, s: State, call: Call, r: ToolResult, name: string, directories: seq<string>)
    requires s.intent.CreateIntent? && DetermineNextAction(s) == Use(ListFiles) && s.requestedName == Some(name) && name != ""
    requires call.tool == ListFiles && !r.isError && r.payload.Some? && r.payload.value.directories == Some(directories)
    requires !s.progress.projectCreated && !s.progress.projectExists && s.progress.framework.None?
    ensures DetermineNextAction(Updated(helpers, s, call, r)) == Use(if name in directories then DetectFramework else CreateProject)
  {
  }

  // ---------------------------------------------------------------- the mark each result leaves

  predicate ReportsExisting(r: ToolResult) {
    !r.isError && r.payload.Some? && r.payload.value.status == ProjectAlreadyExists
  }

  predicate SaysDone(r: ToolResult) {
    !r.isError && r.payload.Some? && r.payload.value.success == Some(true)
  }

  /** The progress a result leaves, as ProgressLeft proves; of the rest of the state only the name asked for takes part. */
  function NextProgress(s: State, call: Call, r: ToolResult): Progress {
    match call.tool
    case AnalyzeRequirement => s.progress.(analysisCompleted := s.progress.analysisCompleted || !r.isError)
    case CreateTasks => s.progress.(tasksCreated := s.progress.tasksCreated || !r.isError)
    case ListFiles => ProgressListed(s.progress, Truthy(s.requestedName), Listed(s, r), r.isError)
    case CreateProject => AfterCreate(s.progress, call, r)
    case DetectFramework => AfterDetect(s.progress, r)
    case PrepareEnvironment => ProgressAfterPrepare(s.progress, r)
    case RunTests => s.progress.(testsExecuted := true, testsPassed := Passed(r))
    case _ => s.progress
  }

  lemma ProgressLeft(helpers: Helpers, s: State, call: Call, r: ToolResult)
    ensures Updated(helpers, s, call, r).progress == NextProgress(s, call, r)
  {
    match call.tool
    case AnalyzeRequirement =>
    case CreateTasks =>
    case ListFiles =>
    case CreateProject =>
    case DetectFramework =>
    case PrepareEnvironment =>
    case RunTests =>
    case _ =>
  }

  /** The planning marks: which result sets each, and that no result clears one. */
  lemma PlanningMarks(s: State, call: Call, r: ToolResult)
    ensures
      var p, q := s.progress, NextProgress(s, call, r);
      && (q.analysisCompleted <==> p.analysisCompleted || (call.tool == AnalyzeRequirement && !r.isError))
      && (q.tasksCreated <==> p.tasksCreated || (call.tool == CreateTasks && !r.isError))
      && (q.workspaceInspected <==> p.workspaceInspected || (call.tool == ListFiles && !r.isError))
  {
    match call.tool
    case AnalyzeRequirement =>
    case CreateTasks =>
    case ListFiles =>
    case CreateProject =>
    case DetectFramework =>
    case PrepareEnvironment =>
    case RunTests =>
    case _ =>
  }

  /** And the project marks. */
  lemma ProjectMarks(s: State, call: Call, r: ToolResult)
    ensures
      var p, q := s.progress, NextProgress(s, call, r);
      && (q.projectCreated <==> p.projectCreated || (call.tool == CreateProject && SaysDone(r) && !ReportsExisting(r)))
      && (q.projectExists <==>
            p.projectExists || (call.tool == CreateProject && ReportsExisting(r)) || (call.tool == ListFiles && NameListed(s, r)))
  {
    match call.tool
    case AnalyzeRequirement =>
    case CreateTasks =>
    case ListFiles =>
    case CreateProject =>
    case DetectFramework =>
    case PrepareEnvironment =>
    case RunTests =>
    case _ =>
  }

  /** Which name is recorded with the project: the one reported, or the one of the call; for a listing the one asked for. */
  lemma NameRecorded(helpers: Helpers, s: State, call: Call, r: ToolResult)
    ensures
      var name := Updated(helpers, s, call, r).progress.createdName;
      if call.tool == ListFiles && NameListed(s, r) then name == s.requestedName
      else if call.tool == CreateProject && (ReportsExisting(r) || SaysDone(r)) then
        var reported := r.payload.value.projectName;
        && (reported.Some? && reported.value != "" ==> name == reported)
        && (reported.None? || reported.value == "" ==> name == Some(if call.projectName.Some? then call.projectName.value else ""))
      else name == s.progress.createdName
  {
  }

  /** The environment marks: the last preparation decides. */
  lemma EnvironmentMarks(s: State, call: Call, r: ToolResult)
    ensures
      var p, q := s.progress, NextProgress(s, call, r);
      && (q.environmentPrepared <==> if call.tool == PrepareEnvironment then SaysDone(r) else p.environmentPrepared)
      && (q.dependenciesInstalled <==> if call.tool == PrepareEnvironment then SaysDone(r) else p.dependenciesInstalled)
  {
  }

  /** The framework is the last one named by a detection. */
  lemma FrameworkMark(s: State, call: Call, r: ToolResult)
    ensures
      var named := r.payload.Some? && r.payload.value.framework.Some? && r.payload.value.framework.value != "";
      NextProgress(s, call, r).framework
      == if call.tool == DetectFramework && named then r.payload.value.framework else s.progress.framework
  {
  }

  /** The test marks: the last run decides, an error and an empty answer included. */
  lemma TestMarks(s: State, call: Call, r: ToolResult)
    ensures
      var p, q := s.progress, NextProgress(s, call, r);
      && (q.testsExecuted <==> call.tool == RunTests || p.testsExecuted)
      && (q.testsPassed <==>
            if call.tool == RunTests then r.payload.Some? && r.payload.value.success == Some(true) else p.testsPassed)
  {
  }

  predicate TransportTimeout(r: ToolResult) {
    r.payload.Some? && r.payload.value.success == Some(false) && r.payload.value.status == McpTimeout
  }

  predicate OnTestingServer(t: Tool) {
    t in {DetectFramework, PrepareEnvironment, RunTests} || (t.OtherTool? && t.server == "testing")
  }

  /** The environment could not be prepared for a reason no change of the project's files can mend. */
  predicate Broken(p: Payload) {
    p.failureType !in {TestFailure, OtherFailure} || p.failureStage != OtherStage
  }

  predicate FailsTests(p: Payload) {
    p.exitCode != Some(5) && p.failureType == TestFailure
  }

  /** Only a test failure after the last fix uses up the retries. */
  lemma RetriesUsedUp(helpers: Helpers, s: State, call: Call, r: ToolResult)
    ensures Updated(helpers, s, call, r).ending.retryLimitReached <==>
      s.ending.retryLimitReached || (call.tool == RunTests && r.payload.Some? && FailsTests(r.payload.value) && s.repair.attempts >= 2)
  {
  }

  /** And no result counts as the user's refusal. */
  lemma ConsentKept(helpers: Helpers, s: State, call: Call, r: ToolResult)
    ensures Updated(helpers, s, call, r).ending.userCancelled == s.ending.userCancelled
  {
  }

  /** Which results say that the test infrastructure failed. */
  lemma InfrastructureMark(helpers: Helpers, s: State, call: Call, r: ToolResult)
    ensures Updated(helpers, s, call, r).ending.testInfrastructureFailed <==>
      || s.ending.testInfrastructureFailed || (OnTestingServer(call.tool) && TransportTimeout(r))
      || (call.tool == RunTests && r.payload.Some? && r.payload.value.timedOut)
      || (call.tool == PrepareEnvironment && !SaysDone(r) && r.payload.Some? && Broken(r.payload.value))
  {
  }

  /** The terminal status a result leaves, the last reason that applies first. */
  lemma TerminalMark(helpers: Helpers, s: State, call: Call, r: ToolResult)
    ensures
      var before, after := s.ending.terminal, Updated(helpers, s, call, r).ending.terminal;
      if call.tool == RunTests && r.payload.Some? && r.payload.value.exitCode == Some(5) then after == Some(TestsFailed)
      else if call.tool == RunTests && r.payload.Some? && FailsTests(r.payload.value) && s.repair.attempts >= 2 then
        after == Some(RetryLimitReached)
      else if call.tool == PrepareEnvironment && !SaysDone(r) && r.payload.Some? && Broken(r.payload.value) then
        after == Some(InfrastructureFailed)
      else if (OnTestingServer(call.tool) || call.tool == GitInit) && TransportTimeout(r) then after == Some(InfrastructureFailed)
      else if call.tool == ListFiles && s.intent == ReviewIntent && s.requestedName !in {None, Some("")}
              && r.payload.Some? && r.payload.value.directories.Some? && !NameListed(s, r) then after == Some(ProjectNotFound)
      else after == before
  {
  }

  // ---------------------------------------------------------------- repair

  function PathOfRead(helpers: Helpers, call: Call, p: Payload): string {
    helpers.clean(if p.path.Some? && p.path.value != "" then p.path.value else call.path)
  }

  /** A read records its file and moves the repair on: past the source when none is inferred, once it has been recorded. */
  lemma ReadMoves(helpers: Helpers, s: State, call: Call, r: ToolResult)
    requires call.tool == ReadFile && r.payload.Some?
    ensures
      var before, after := s.repair, Updated(helpers, s, call, r).repair;
      var reading := before.phase in {NotStarted, ReadFailingTest, ReadRelatedSource};
      && after.failingTestFiles == before.failingTestFiles && after.attempts == before.attempts
      && after.filesUpdated == before.filesUpdated
      && after.filesRead == before.filesRead + (if reading then {PathOfRead(helpers, call, r.payload.value)} else {})
      && (!reading ==> after.phase == before.phase) && (before.phase == ReadRelatedSource ==> after.phase == ApplyFix)
  {
  }

  /** After the failing test comes its source, unless none can be inferred. */
  lemma SourceAfterTest(helpers: Helpers, s: State, call: Call, r: ToolResult)
    requires call.tool == ReadFile && r.payload.Some? && s.repair.phase in {NotStarted, ReadFailingTest}
    ensures
      var after := Updated(helpers, s, call, r);
      var asked := after.(repair := after.repair.(phase := s.repair.phase));
      after.repair.phase == if helpers.infer(asked).Some? then ReadRelatedSource else ApplyFix
  {
  }

  /** A fix counts when it was due and succeeded, and what it wrote is recorded in any case. */
  lemma FixMoves(helpers: Helpers, s: State, call: Call, r: ToolResult)
    requires call.tool == UpdateFiles
    ensures
      var before, after := s.repair, Updated(helpers, s, call, r).repair;
      var due := SaysDone(r) && before.phase == ApplyFix;
      && after.failingTestFiles == before.failingTestFiles && after.filesRead == before.filesRead
      && (forall f :: f in after.filesUpdated <==> f in before.filesUpdated || (SaysDone(r) && WrittenBy(helpers, call, f)))
      && after.phase == (if due then RerunTests else before.phase)
      && after.attempts == before.attempts + if due then 1 else 0
  {
  }

  /** What a test run does to the repair: a failure names the files to read, one without tests forgets them. */
  lemma RunMoves(helpers: Helpers, s: State, call: Call, r: ToolResult)
    requires call.tool == RunTests && r.payload.Some?
    ensures
      var before, after, p := s.repair, Updated(helpers, s, call, r).repair, r.payload.value;
      && after.attempts == before.attempts && after.filesRead == before.filesRead && after.filesUpdated == before.filesUpdated
      && (p.exitCode == Some(5) ==> after.phase == NotStarted && after.failingTestFiles == [])
      && (FailsTests(p) ==> after.failingTestFiles == p.failingFiles)
      && (FailsTests(p) && before.attempts < 2 ==> after.phase == ReadFailingTest)
      && (p.exitCode != Some(5) && !FailsTests(p) ==>
            && after.failingTestFiles == before.failingTestFiles
            && after.phase == if before.phase == RerunTests && p.success == Some(true) then Repaired else before.phase)
  {
  }

  /** Tools that no part of a repair depends on leave it alone. */
  lemma RepairKept(helpers: Helpers, s: State, call: Call, r: ToolResult)
    requires call.tool !in {ReadFile, UpdateFiles, RunTests} || r.payload.None?
    ensures Updated(helpers, s, call, r).repair == s.repair
  {
  }

  /** A failed first run leads to reading the first failing file, as long as fixes are left. */
  lemma FailureStartsRepair(helpers: Helpers, registry: set<Tool>, s: State, call: Call, r: ToolResult)
    requires DetermineNextAction(s) == Use(RunTests) && call.tool == RunTests && ReadFile in registry
    requires r.payload.Some? && FailsTests(r.payload.value) && r.payload.value.success == Some(false)
    requires r.payload.value.status != McpTimeout && !r.payload.value.timedOut && s.repair.attempts < 2
    ensures
      var after := Updated(helpers, s, call, r);
      DetermineNextAction(after) == FixFailedTests && AllowedTool(after, registry) == Some(ReadFile)
  {
  }

  /** A repair without a failing test file is stuck: it lets no call at all through. */
  lemma NothingToRead(helpers: Helpers, s: State, call: Call)
    requires DetermineNextAction(s) == FixFailedTests && s.repair.phase in {NotStarted, ReadFailingTest} && s.repair.failingTestFiles == []
    ensures Refused(helpers, s, call).Some?
  {
  }

  /** And a run that collected no tests leads there: the request is not ended, and every later call is refused. */
  lemma NoTestsCollectedStuck(helpers: Helpers, s: State, call: Call, r: ToolResult, later: Call)
    requires DetermineNextAction(s) == Use(RunTests) && call.tool == RunTests
    requires r.payload.Some? && r.payload.value.exitCode == Some(5) && r.payload.value.success == Some(false)
    requires r.payload.value.status != McpTimeout && !r.payload.value.timedOut
    ensures
      var after := Updated(helpers, s, call, r);
      && !IsTerminal(after) && after.ending.terminal == Some(TestsFailed)
      && Refused(helpers, after, later).Some?
  {
    NothingToRead(helpers, Updated(helpers, s, call, r), later);
  }

  predicate WrittenBy(helpers: Helpers, call: Call, path: string) {
    call.files.Some? && exists f :: f in call.files.value && f.FileArgument? && path == helpers.clean(f.path)
  }

  // ---------------------------------------------------------------- refusals

  function RepairedProject(s: State): Option<string> {
    if s.progress.createdName.Some? && s.progress.createdName.value != "" then s.progress.createdName
    else if s.requestedName.Some? && s.requestedName.value != "" then s.requestedName
    else None
  }

  /** The file a repair read must name: the first failing test, then the source inferred for it. */
  predicate ReadsWhatItMust(helpers: Helpers, s: State, call: Call) {
    var first := s.repair.phase in {NotStarted, ReadFailingTest};
    && (first ==> s.repair.failingTestFiles != [])
    && var file := if first then Some(s.repair.failingTestFiles[0]) else helpers.infer(s);
       file.Some? && file.value != "" ==>
         helpers.relative(if RepairedProject(s).Some? then RepairedProject(s).value else "", file.value) == Some(helpers.clean(call.path))
  }

  ghost predicate FitsRepair(helpers: Helpers, s: State, call: Call) {
    && (call.tool == ReadFile ==> s.repair.phase in {NotStarted, ReadFailingTest, ReadRelatedSource} && ReadsWhatItMust(helpers, s, call))
    && (call.tool == UpdateFiles ==>
          && s.repair.phase == ApplyFix && call.files.Some? && call.files.value != []
          && forall i :: 0 <= i < |call.files.value| ==> Writable(helpers, s.repair.failingTestFiles, call.files.value[i]))
    && (call.tool == RunTests ==> s.repair.phase == RerunTests)
    && call.tool in {ReadFile, UpdateFiles, RunTests}
    && (call.tool != ReadFile && RepairedProject(s).Some? ==> call.projectName == RepairedProject(s))
  }

  /** A repair lets through exactly the call its phase asks for. */
  lemma RepairLetsThrough(helpers: Helpers, s: State, call: Call)
    ensures RefusedRepair(helpers, s, call).None? <==> FitsRepair(helpers, s, call)
  {
    if call.tool.UpdateFiles? && call.files.Some? {
      FilesLetThrough(helpers, s.repair.failingTestFiles, call.files.value);
    }
  }

  predicate MayCreate(helpers: Helpers, s: State, call: Call) {
    && call.files.Some? && call.files.value != []
    && (s.requestedName.Some? && s.requestedName.value != "" ==> call.projectName == s.requestedName)
    && !s.progress.projectCreated && !s.progress.projectExists
    && !helpers.dependenciesRefused(call)
  }

  lemma CreateLetsThrough(helpers: Helpers, s: State, call: Call)
    ensures RefusedCreate(helpers, s, call).None? <==> MayCreate(helpers, s, call)
  {
  }

  /** What the Host lets through, call by call: steps once, nothing after a broken infrastructure, repairs in their order. */
  lemma LetThroughIff(helpers: Helpers, s: State, call: Call)
    ensures Refused(helpers, s, call).None? <==>
      && !(call.tool == AnalyzeRequirement && s.progress.analysisCompleted)
      && !(call.tool == CreateTasks && s.progress.tasksCreated)
      && !(call.tool == PrepareEnvironment && s.progress.environmentPrepared)
      && (s.ending.testInfrastructureFailed ==>
            call.tool !in {ListFiles, ReadFile, UpdateFiles, DetectFramework, PrepareEnvironment, RunTests})
      && (DetermineNextAction(s) == FixFailedTests ==> FitsRepair(helpers, s, call))
      && (call.tool == CreateProject ==> MayCreate(helpers, s, call))
  {
    RepairLetsThrough(helpers, s, call);
    CreateLetsThrough(helpers, s, call);
  }

  // ---------------------------------------------------------------- reasons

  /** The reason a refusal gives, for the checks every call passes first. */
  lemma EarlyReasons(helpers: Helpers, s: State, call: Call)
    ensures
      var done := (call.tool == AnalyzeRequirement && s.progress.analysisCompleted) || (call.tool == CreateTasks && s.progress.tasksCreated);
      var stopped := s.ending.testInfrastructureFailed
        && call.tool in {ListFiles, ReadFile, UpdateFiles, DetectFramework, PrepareEnvironment, RunTests};
      var r := Refused(helpers, s, call);
      && (done <==> r == Some(StepAlreadyCompleted))
      && (!done && stopped <==> r == Some(StoppedAfterInfrastructureFailure))
      && (!stopped && call.tool == PrepareEnvironment && s.progress.environmentPrepared <==> r == Some(EnvironmentAlreadyPrepared))
  {
    if call.tool.UpdateFiles? && call.files.Some? {
      FilesReasons(helpers, s.repair.failingTestFiles, call.files.value);
    }
  }

  /** And for a repair: the wrong tool, a test file nobody knows, another file, another project. */
  lemma RepairReasons(helpers: Helpers, s: State, call: Call)
    ensures
      var r, reading := RefusedRepair(helpers, s, call), s.repair.phase in {NotStarted, ReadFailingTest};
      var due := (reading || s.repair.phase == ReadRelatedSource, s.repair.phase == ApplyFix, s.repair.phase == RerunTests);
      var fits := (call.tool == ReadFile && due.0) || (call.tool == UpdateFiles && due.1) || (call.tool == RunTests && due.2);
      && (!fits <==> r == Some(RepairStepNotAllowed))
      && (fits && call.tool == ReadFile && reading && s.repair.failingTestFiles == [] <==> r == Some(MissingFailingTestFile))
      && (fits && call.tool == ReadFile && (reading ==> s.repair.failingTestFiles != []) && !ReadsWhatItMust(helpers, s, call)
          <==> r == Some(ReadPathNotAllowed))
      && (fits && call.tool != ReadFile && RepairedProject(s).Some? && call.projectName != RepairedProject(s) <==> r == Some(ArgumentConflict))
  {
    if call.tool.UpdateFiles? && call.files.Some? {
      FilesReasons(helpers, s.repair.failingTestFiles, call.files.value);
    }
  }

  predicate NoPath(helpers: Helpers, f: FileArgument) {
    f.NotAFile? || helpers.clean(f.path) == "" || !helpers.inside(helpers.clean(f.path))
  }

  /** The first file that may not be written stands at i. */
  ghost predicate FirstUnwritable(helpers: Helpers, allowed: seq<string>, files: seq<FileArgument>, i: nat) {
    && i < |files| && !Writable(helpers, allowed, files[i])
    && forall j :: 0 <= j < i ==> Writable(helpers, allowed, files[j])
  }

  /** The first unwritable file of a list gives the reason: no path inside the project, or not one of the failing tests. */
  lemma {:induction false} FirstFileDecides(helpers: Helpers, allowed: seq<string>, files: seq<FileArgument>, i: nat)
    requires FirstUnwritable(helpers, allowed, files, i)
    ensures RefusedFiles(helpers, allowed, files) == Some(if NoPath(helpers, files[i]) then InvalidArguments else UpdatePathNotAllowed)
  {
    if i > 0 {
      assert Writable(helpers, allowed, files[0]);
      FirstFileDecides(helpers, allowed, files[1..], i - 1);
    }
  }

  lemma {:induction false} FilesReasons(helpers: Helpers, allowed: seq<string>, files: seq<FileArgument>)
    ensures RefusedFiles(helpers, allowed, files) in {None, Some(InvalidArguments), Some(UpdatePathNotAllowed)}
  {
    if files != [] {
      FilesReasons(helpers, allowed, files[1..]);
    }
  }

  /** An update without files is refused as invalid, with files by the first that may not be written. */
  lemma UpdateReasons(helpers: Helpers, s: State, call: Call)
    requires call.tool == UpdateFiles && s.repair.phase == ApplyFix
    requires RepairedProject(s).Some? ==> call.projectName == RepairedProject(s)
    ensures RefusedRepair(helpers, s, call)
      == if call.files.None? || call.files.value == [] then Some(InvalidArguments)
         else RefusedFiles(helpers, s.repair.failingTestFiles, call.files.value)
  {
  }

  /** A project is refused without files, under another name, when there is one already, and for its dependencies, in that order. */
  lemma CreateReasons(helpers: Helpers, s: State, call: Call)
    ensures
      var r := RefusedCreate(helpers, s, call);
      var empty := call.files.None? || call.files.value == [];
      var renamed := s.requestedName.Some? && s.requestedName.value != "" && call.projectName != s.requestedName;
      var known := s.progress.projectCreated || s.progress.projectExists;
      && (r == Some(InvalidArguments) <==> empty)
      && (r == Some(ArgumentConflict) <==> !empty && renamed)
      && (r == Some(ProjectAlreadyThere) <==> !empty && !renamed && known)
      && (r == Some(DependencyPolicyViolation) <==> !empty && !renamed && !known && helpers.dependenciesRefused(call))
  {
  }

  // ---------------------------------------------------------------- one call

  /** The call as its client would get it; during a repair a read must name a path of the project. */
  predicate Delivers(helpers: Helpers, h: Host, call: Call, local: Call) {
    if h.active && DetermineNextAction(h.state) == FixFailedTests && call.tool == ReadFile then
      && helpers.relative(if RepairedProject(h.state).Some? then RepairedProject(h.state).value else "", call.path) == Some(local.path)
      && local == call.(path := local.path)
    else local == call
  }

  function TimesRun(h: Host, call: Call): nat {
    var name := if call.projectName.Some? then call.projectName.value else "";
    if name in h.testAttempts then h.testAttempts[name] else 0
  }

  /** Nothing the Host itself knows speaks against the call. */
  predicate Clear(helpers: Helpers, h: Host, local: Call) {
    && helpers.key(local) !in h.rejectedCalls
    && (h.active ==> Refused(helpers, h.state, local).None?)
    && (local.tool == RunTests ==> TimesRun(h, local) < 3)
  }

  /** The user is not asked, or says yes to a tool not turned down before in this request. */
  predicate Consented(h: Host, local: Call, mode: ApprovalMode, answer: Answer) {
    local.sensitive && mode == Prompt ==> answer.approved && (h.active ==> local.tool !in h.state.log.rejectedTools)
  }

  lemma DeliversIff(helpers: Helpers, h: Host, call: Call, local: Call)
    ensures Localized(helpers, h, call) == Some(local) <==> Delivers(helpers, h, call, local)
  {
  }

  lemma HandledReaches(helpers: Helpers, h: Host, local: Call, mode: ApprovalMode, answer: Answer)
    ensures HandleCall(helpers, h, local, mode, answer).reached
      == if Clear(helpers, h, local) && Consented(h, local, mode, answer) then Some(local) else None
  {
  }

  /** A call reaches its client if and only if nothing speaks against it and the user, where asked, says yes. */
  lemma ReachesIff(helpers: Helpers, h: Host, request: Request, mode: ApprovalMode, answer: Answer, local: Call)
    ensures Handle(helpers, h, request, mode, answer).reached == Some(local) <==>
      request.Valid? && Delivers(helpers, h, request.call, local) && Clear(helpers, h, local) && Consented(h, local, mode, answer)
  {
    if request.Valid? {
      DeliversIff(helpers, h, request.call, local);
      var localized := Localized(helpers, h, request.call);
      if localized.Some? {
        HandledReaches(helpers, h, localized.value, mode, answer);
      }
    }
  }

  /** What a call that reached its client leaves: the attempt counted, the result in the state, the rejections as they were. */
  lemma ReachedLeaves(helpers: Helpers, h: Host, request: Request, mode: ApprovalMode, answer: Answer, local: Call)
    requires Handle(helpers, h, request, mode, answer).reached == Some(local)
    ensures
      var after := Handle(helpers, h, request, mode, answer).host;
      && after.rejectedCalls == h.rejectedCalls && after.active == h.active
      && (h.active ==> after.state == Updated(helpers, h.state, local, Reconciled(h.state, local, answer.result)))
      && (!h.active ==> after.state == h.state)
      && (forall name :: name in after.testAttempts <==> name in h.testAttempts || (local.tool == RunTests && name == TestName(local)))
      && (forall name :: name in after.testAttempts ==>
            after.testAttempts[name]
            == if local.tool == RunTests && name == TestName(local) then TimesRun(h, local) + 1 else h.testAttempts[name])
  {
  }

  /** A call that the Host turns away leaves it as it was, but for the fourth test run, which ends the request. */
  lemma TurnedAwayLeaves(helpers: Helpers, h: Host, call: Call, mode: ApprovalMode, answer: Answer)
    requires Delivers(helpers, h, call, call) && !Clear(helpers, h, call)
    ensures
      var after := Handle(helpers, h, Valid(call), mode, answer).host;
      if helpers.key(call) in h.rejectedCalls || (h.active && Refused(helpers, h.state, call).Some?) then after == h
      else
        && after.rejectedCalls == h.rejectedCalls && after.testAttempts == h.testAttempts
        && (h.active ==> IsTerminal(after.state) && after.state.ending.terminal == Some(RetryLimitReached)
                         && after.state.progress == h.state.progress && after.state.repair == h.state.repair && after.state.log == h.state.log)
  {
  }

  /** A call with no consent leaves the attempt counted, and when the user was asked the refusal remembered. */
  lemma NoConsentLeaves(helpers: Helpers, h: Host, call: Call, answer: Answer)
    requires h.active && Delivers(helpers, h, call, call) && Clear(helpers, h, call) && !Consented(h, call, Prompt, answer)
    ensures
      var after := Handle(helpers, h, Valid(call), Prompt, answer).host;
      && (call.tool in h.state.log.rejectedTools ==> after.rejectedCalls == h.rejectedCalls && after.state == h.state)
      && (call.tool !in h.state.log.rejectedTools ==>
            && after.rejectedCalls == h.rejectedCalls + {helpers.key(call)}
            && after.state.log.rejectedTools == h.state.log.rejectedTools + {call.tool}
            && after.state.ending.userCancelled && after.state.ending.terminal == Some(RejectedByUser))
      && (call.tool == RunTests ==> Attempts(after, TestName(call)) == TimesRun(h, call) + 1)
  {
  }

  // ---------------------------------------------------------------- results put straight

  /** An error saying that the project exists becomes an ordinary result saying so, under the name of the call. */
  lemma ExistingBecomesResult(s: State, call: Call, r: ToolResult)
    requires call.tool == CreateProject && r.isError && r.saysProjectExists
    ensures
      var fixed := Reconciled(s, call, r);
      && ReportsExisting(fixed) && fixed.payload.value.success == Some(false)
      && (call.projectName.Some? && call.projectName.value != "" ==> fixed.payload.value.projectName == call.projectName)
  {
  }

  /** A timed-out test run is never a success, and otherwise a result keeps whether it succeeded. */
  lemma ReconciledSuccess(s: State, call: Call, r: ToolResult)
    requires !(call.tool == CreateProject && r.isError && r.saysProjectExists)
    ensures
      var fixed := Reconciled(s, call, r);
      && fixed.isError == r.isError && fixed.payload.Some? == r.payload.Some?
      && (r.payload.Some? ==>
            fixed.payload.value.success == if call.tool == RunTests && !r.isError && r.payload.value.timedOut then Some(false)
                                           else r.payload.value.success)
      && (r.payload.Some? && call.tool !in {RunTests, PrepareEnvironment} ==> fixed == r)
      && (r.payload.Some? ==>
            && fixed.payload.value.failureType == r.payload.value.failureType && fixed.payload.value.failureStage == r.payload.value.failureStage
            && fixed.payload.value.exitCode == r.payload.value.exitCode && fixed.payload.value.timedOut == r.payload.value.timedOut
            && fixed.payload.value.failingFiles == r.payload.value.failingFiles)
  {
  }

  /** A failed preparation that came back from the server is not taken for a timeout of the transport. */
  lemma FailedPreparationIsNoTimeout(s: State, call: Call, r: ToolResult)
    requires call.tool == PrepareEnvironment && !r.isError
    ensures !TransportTimeout(Reconciled(s, call, r))
  {
  }

  /** What the log gains from a result. */
  lemma LogMarks(helpers: Helpers, s: State, call: Call, r: ToolResult)
    ensures
      var before, after := s.log, Updated(helpers, s, call, r).log;
      && after.lastTool == Some(call.tool) && after.rejectedTools == before.rejectedTools
      && after.sensitiveExecuted == before.sensitiveExecuted + (if call.sensitive then [call.tool] else [])
  {
  }
}
