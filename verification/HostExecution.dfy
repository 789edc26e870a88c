/** The Host object and its execution state: handle_function_call step by step, proved against the state functions (host.py). */
module HostExecution {
  import opened Prelude
  import opened HostState

  class ExecutionState {
    var intent: Intent
    var requestedName: Option<string>
    var analysisCompleted: bool
    var tasksCreated: bool
    var workspaceInspected: bool
    var projectCreated: bool
    var projectExists: bool
    var createdName: Option<string>
    var framework: Option<string>
    var environmentPrepared: bool
    var dependenciesInstalled: bool
    var testsExecuted: bool
    var testsPassed: bool
    var repairPhase: Phase
    var repairAttempts: nat
    var failingTestFiles: seq<string>
    var filesRead: set<string>
    var filesUpdated: set<string>
    var testInfrastructureFailed: bool
    var retryLimitReached: bool
    var userCancelled: bool
    var terminal: Option<Terminal>
    var sensitiveExecuted: seq<Tool>
    var rejectedTools: set<Tool>
    var lastTool: Option<Tool>

    function TheProgress(): Progress
      reads `analysisCompleted, `tasksCreated, `workspaceInspected, `projectCreated, `projectExists, `createdName, `framework
      reads `environmentPrepared, `dependenciesInstalled, `testsExecuted, `testsPassed
    {
      Progress(analysisCompleted, tasksCreated, workspaceInspected, projectCreated, projectExists, createdName, framework,
               environmentPrepared, dependenciesInstalled, testsExecuted, testsPassed)
    }

    function TheRepair(): Repair
      reads `repairPhase, `repairAttempts, `failingTestFiles, `filesRead, `filesUpdated
    {
      Repair(repairPhase, repairAttempts, failingTestFiles, filesRead, filesUpdated)
    }

    function TheEnding(): Ending
      reads `testInfrastructureFailed, `retryLimitReached, `userCancelled, `terminal
    {
      Ending(testInfrastructureFailed, retryLimitReached, userCancelled, terminal)
    }

    function TheLog(): Log
      reads `sensitiveExecuted, `rejectedTools, `lastTool
    {
      Log(sensitiveExecuted, rejectedTools, lastTool)
    }

    function TheState(): State
      reads this
    {
      State(intent, requestedName, TheProgress(), TheRepair(), TheEnding(), TheLog())
    }

    constructor (intent: Intent, requestedName: Option<string>)
      ensures TheState() == Fresh(intent, requestedName)
    {
      this.intent, this.requestedName := intent, requestedName;
      analysisCompleted, tasksCreated, workspaceInspected, projectCreated, projectExists := false, false, false, false, false;
      createdName, framework := None, None;
      environmentPrepared, dependenciesInstalled, testsExecuted, testsPassed := false, false, false, false;
      repairPhase, repairAttempts, failingTestFiles, filesRead, filesUpdated := NotStarted, 0, [], {}, {};
      testInfrastructureFailed, retryLimitReached, userCancelled, terminal := false, false, false, None;
      sensitiveExecuted, rejectedTools, lastTool := [], {}, None;
    }

    // -------------------------------------------------------------- before a call

    /** The loop over the files of an update: the first that may not be written decides. */
    method CheckUpdatePaths(helpers: Helpers, files: seq<FileArgument>) returns (refusal: Option<Refusal>)
      ensures refusal == RefusedFiles(helpers, failingTestFiles, files)
    {
      var i := 0;
      while i < |files|
        invariant 0 <= i <= |files|
        invariant RefusedFiles(helpers, failingTestFiles, files) == RefusedFiles(helpers, failingTestFiles, files[i..])
      {
        assert files[i..][1..] == files[i + 1..];
        var path := CleanPath(helpers, files[i]);
        if path == "" || !helpers.inside(path) {
          return Some(InvalidArguments);
        }
        if failingTestFiles != [] && path !in failingTestFiles {
          return Some(UpdatePathNotAllowed);
        }
        i := i + 1;
      }
      return None;
    }

    method ValidateRepairStep(helpers: Helpers, call: Call) returns (refusal: Option<Refusal>)
      ensures refusal == RefusedRepair(helpers, TheState(), call)
    {
      if RepairTool(TheState()) != Some(call.tool) {
        return Some(RepairStepNotAllowed);
      }
      match call.tool {
        case ReadFile => return RefusedRead(helpers, TheState(), call);
        case UpdateFiles =>
          if OtherProject(TheState(), call) {
            return Some(ArgumentConflict);
          }
          if call.files.None? || call.files.value == [] {
            return Some(InvalidArguments);
          }
          refusal := CheckUpdatePaths(helpers, call.files.value);
        case RunTests => return if OtherProject(TheState(), call) then Some(ArgumentConflict) else None;
        case _ => return None;
      }
    }

    method ValidateCall(helpers: Helpers, call: Call) returns (refusal: Option<Refusal>)
      ensures refusal == Refused(helpers, TheState(), call)
    {
      if (call.tool.AnalyzeRequirement? && analysisCompleted) || (call.tool.CreateTasks? && tasksCreated) {
        return Some(StepAlreadyCompleted);
      }
      if testInfrastructureFailed && StopsAfterInfrastructureFailure(call.tool) {
        return Some(StoppedAfterInfrastructureFailure);
      }
      if call.tool.PrepareEnvironment? && environmentPrepared {
        return Some(EnvironmentAlreadyPrepared);
      }
      if DetermineNextAction(TheState()).FixFailedTests? {
        refusal := ValidateRepairStep(helpers, call);
        if refusal.Some? {
          return;
        }
      }
      return if call.tool.CreateProject? then RefusedCreate(helpers, TheState(), call) else None;
    }

    method MarkLimitReached()
      modifies `retryLimitReached, `terminal
      ensures TheEnding() == LimitReached(old(TheEnding()))
    {
      retryLimitReached := true;
      terminal := Some(RetryLimitReached);
    }

    method MarkTurnedDown(call: Call)
      modifies `rejectedTools, `userCancelled, `terminal
      ensures TheLog() == old(TheLog()).(rejectedTools := old(rejectedTools) + {call.tool})
      ensures TheEnding() == TurnedDown(old(TheEnding()))
    {
      rejectedTools := rejectedTools + {call.tool};
      userCancelled := true;
      terminal := Some(RejectedByUser);
    }

    // -------------------------------------------------------------- after a call

    method NoteResult(call: Call, r: ToolResult)
      modifies `lastTool, `sensitiveExecuted, `terminal, `testInfrastructureFailed
      ensures TheLog() == Recorded(old(TheLog()), call)
      ensures TheEnding() == TimeoutNoted(old(TheEnding()), call.tool, r)
    {
      lastTool := Some(call.tool);
      if call.sensitive {
        sensitiveExecuted := sensitiveExecuted + [call.tool];
      }
      if TimedOutAtTransport(r) {
        if call.tool.GitInit? {
          terminal := Some(InfrastructureFailed);
        } else if OfTestingServer(call.tool) {
          terminal := Some(InfrastructureFailed);
          testInfrastructureFailed := true;
        }
      }
    }

    method FindListed(r: ToolResult) returns (listed: Option<bool>)
      ensures listed == Listed(TheState(), r)
    {
      var wanted := Truthy(requestedName);
      if r.payload.Some? && wanted.Some? && r.payload.value.directories.Some? {
        return Some(wanted.value in r.payload.value.directories.value);
      }
      return None;
    }

    method MarkInspected()
      modifies `workspaceInspected
      ensures TheProgress() == old(TheProgress()).(workspaceInspected := true)
      ensures TheRepair() == old(TheRepair()) && TheEnding() == old(TheEnding()) && TheLog() == old(TheLog())
    {
      workspaceInspected := true;
    }

    method MarkExisting()
      modifies `projectExists, `createdName
      ensures TheProgress() == old(TheProgress()).(projectExists := true, createdName := Truthy(requestedName))
      ensures TheRepair() == old(TheRepair()) && TheEnding() == old(TheEnding()) && TheLog() == old(TheLog())
    {
      projectExists := true;
      createdName := Truthy(requestedName);
    }

    method NoteListing(listed: Option<bool>, failed: bool)
      modifies `workspaceInspected, `projectExists, `createdName
      ensures TheProgress() == ProgressListed(old(TheProgress()), Truthy(requestedName), listed, failed)
      ensures TheRepair() == old(TheRepair()) && TheEnding() == old(TheEnding()) && TheLog() == old(TheLog())
    {
      if !failed {
        MarkInspected();
      }
      if listed == Some(true) {
        MarkExisting();
      }
    }

    method EndIfMissing(listed: Option<bool>)
      modifies `terminal
      ensures TheEnding() == EndingListed(old(TheEnding()), intent, listed)
      ensures TheProgress() == old(TheProgress()) && TheRepair() == old(TheRepair()) && TheLog() == old(TheLog())
    {
      if listed == Some(false) && intent.ReviewIntent? {
        terminal := Some(ProjectNotFound);
      }
    }

    method UpdateAfterList(r: ToolResult)
      modifies `workspaceInspected, `projectExists, `createdName, `terminal
      ensures TheState() == AfterList(old(TheState()), r)
    {
      var listed := FindListed(r);
      NoteListing(listed, r.isError);
      EndIfMissing(listed);
    }

    method UpdateAfterCreate(call: Call, r: ToolResult)
      modifies `projectExists, `projectCreated, `createdName
      ensures TheProgress() == AfterCreate(old(TheProgress()), call, r)
    {
      if SaysExists(r) {
        projectExists := true;
        createdName := Some(NameOf(call, r.payload.value));
      } else if BusinessSuccess(r) {
        projectCreated := true;
        createdName := Some(NameOf(call, r.payload.value));
      }
    }

    method UpdateAfterRead(helpers: Helpers, call: Call, r: ToolResult)
      modifies `filesRead, `repairPhase
      ensures TheState() == old(TheState()).(repair := AfterRead(helpers, old(TheState()), call, r))
    {
      if r.payload.None? {
        return;
      }
      var path := PathRead(helpers, call, r.payload.value);
      if ReadingTest(TheState()) {
        filesRead := filesRead + {path};
        repairPhase := if helpers.infer(TheState()).Some? then ReadRelatedSource else ApplyFix;
      } else if repairPhase.ReadRelatedSource? {
        filesRead := filesRead + {path};
        repairPhase := ApplyFix;
      }
    }

    method UpdateAfterWrite(helpers: Helpers, call: Call, r: ToolResult)
      modifies `filesUpdated, `repairAttempts, `repairPhase
      ensures TheRepair() == AfterUpdate(helpers, old(TheRepair()), call, r)
    {
      if !BusinessSuccess(r) {
        return;
      }
      filesUpdated := filesUpdated + Written(helpers, call.files);
      if repairPhase.ApplyFix? {
        repairAttempts := repairAttempts + 1;
        repairPhase := RerunTests;
      }
    }

    method UpdateAfterFailure(p: Payload)
      modifies `failingTestFiles, `repairPhase, `retryLimitReached, `terminal
      ensures TheRepair() == RepairAfterFailure(old(TheRepair()), p)
      ensures TheEnding() == EndingAfterFailure(old(TheEnding()), old(repairAttempts), p)
    {
      if p.exitCode == Some(5) {
        failingTestFiles := [];
        repairPhase := NotStarted;
        terminal := Some(TestsFailed);
      } else if p.failureType.TestFailure? {
        failingTestFiles := p.failingFiles;
        if repairAttempts >= MAX_REPAIR_ATTEMPTS {
          retryLimitReached := true;
          terminal := Some(RetryLimitReached);
        } else {
          repairPhase := ReadFailingTest;
        }
      }
    }

    method UpdateAfterRun(p: Payload, passed: bool)
      modifies `failingTestFiles, `repairPhase, `retryLimitReached, `terminal, `testInfrastructureFailed
      ensures TheRepair() == RepairAfterRun(old(TheRepair()), p, passed)
      ensures TheEnding() == EndingAfterRun(old(TheEnding()), old(repairAttempts), p)
    {
      if passed && repairPhase.RerunTests? {
        repairPhase := Repaired;
      }
      UpdateAfterFailure(p);
      if p.timedOut {
        testInfrastructureFailed := true;
      }
    }

    method MarkTested(r: ToolResult)
      modifies `testsExecuted, `testsPassed
      ensures TheProgress() == old(TheProgress()).(testsExecuted := true, testsPassed := Passed(r))
      ensures TheRepair() == old(TheRepair()) && TheEnding() == old(TheEnding()) && TheLog() == old(TheLog())
    {
      testsExecuted := true;
      testsPassed := Passed(r);
    }

    method SettleTests(r: ToolResult)
      modifies `failingTestFiles, `repairPhase, `retryLimitReached, `terminal, `testInfrastructureFailed
      ensures TheRepair() == RepairAfterTests(old(TheRepair()), r)
      ensures TheEnding() == EndingAfterTests(old(TheEnding()), old(repairAttempts), r)
      ensures TheProgress() == old(TheProgress()) && TheLog() == old(TheLog())
    {
      if r.payload.Some? {
        UpdateAfterRun(r.payload.value, Passed(r));
      }
    }

    method UpdateAfterTests(r: ToolResult)
      modifies `testsExecuted, `testsPassed, `failingTestFiles, `repairPhase, `retryLimitReached, `terminal, `testInfrastructureFailed
      ensures TheState() == AfterTests(old(TheState()), r)
    {
      SettleTests(r);
      MarkTested(r);
    }

    method UpdateAfterPrepare(r: ToolResult)
      modifies `environmentPrepared, `dependenciesInstalled, `testInfrastructureFailed, `terminal
      ensures TheProgress() == ProgressAfterPrepare(old(TheProgress()), r)
      ensures TheEnding() == EndingAfterPrepare(old(TheEnding()), r)
    {
      if BusinessSuccess(r) {
        environmentPrepared, dependenciesInstalled := true, true;
      } else {
        environmentPrepared, dependenciesInstalled := false, false;
        if r.payload.Some? && EnvironmentBroken(r.payload.value) {
          testInfrastructureFailed := true;
          terminal := Some(InfrastructureFailed);
        }
      }
    }

    method UpdateAfterDetect(r: ToolResult)
      modifies `framework
      ensures TheState() == old(TheState()).(progress := AfterDetect(old(TheProgress()), r))
    {
      if r.payload.Some? && Truthy(r.payload.value.framework).Some? {
        framework := r.payload.value.framework;
      }
    }

    method ApplyPlanning(helpers: Helpers, call: Call, r: ToolResult)
      requires call.tool.AnalyzeRequirement? || call.tool.CreateTasks?
      modifies `analysisCompleted, `tasksCreated
      ensures TheState() == Applied(helpers, old(TheState()), call, r)
    {
      match call.tool {
        case AnalyzeRequirement => analysisCompleted := analysisCompleted || !r.isError;
        case CreateTasks => tasksCreated := tasksCreated || !r.isError;
      }
    }

    method ApplyProject(helpers: Helpers, call: Call, r: ToolResult)
      requires call.tool.CreateProject? || call.tool.DetectFramework?
      modifies `projectExists, `projectCreated, `createdName, `framework
      ensures TheState() == Applied(helpers, old(TheState()), call, r)
    {
      if call.tool.CreateProject? {
        UpdateAfterCreate(call, r);
      } else {
        UpdateAfterDetect(r);
      }
    }

    method ApplyRepair(helpers: Helpers, call: Call, r: ToolResult)
      requires call.tool.ReadFile? || call.tool.UpdateFiles?
      modifies `filesRead, `filesUpdated, `repairAttempts, `repairPhase
      ensures TheState() == Applied(helpers, old(TheState()), call, r)
    {
      if call.tool.ReadFile? {
        UpdateAfterRead(helpers, call, r);
      } else {
        UpdateAfterWrite(helpers, call, r);
      }
    }

    method ApplyPrepare(helpers: Helpers, call: Call, r: ToolResult)
      requires call.tool.PrepareEnvironment?
      modifies `environmentPrepared, `dependenciesInstalled, `testInfrastructureFailed, `terminal
      ensures TheState() == Applied(helpers, old(TheState()), call, r)
    {
      UpdateAfterPrepare(r);
    }

    method ApplyResult(helpers: Helpers, call: Call, r: ToolResult)
      modifies this
      ensures TheState() == Applied(helpers, old(TheState()), call, r)
    {
      match call.tool {
        case AnalyzeRequirement => ApplyPlanning(helpers, call, r);
        case CreateTasks => ApplyPlanning(helpers, call, r);
        case ListFiles => UpdateAfterList(r);
        case CreateProject => ApplyProject(helpers, call, r);
        case ReadFile => ApplyRepair(helpers, call, r);
        case UpdateFiles => ApplyRepair(helpers, call, r);
        case DetectFramework => ApplyProject(helpers, call, r);
        case PrepareEnvironment => ApplyPrepare(helpers, call, r);
        case RunTests => UpdateAfterTests(r);
        case _ =>
      }
    }

    method Update(helpers: Helpers, call: Call, r: ToolResult)
      modifies this
      ensures TheState() == Updated(helpers, old(TheState()), call, r)
    {
      NoteResult(call, r);
      ApplyResult(helpers, call, r);
    }
  }

  class SoftwareFactoryHost {
    const helpers: Helpers
    var rejectedCalls: set<string>
    var testAttempts: map<string, nat>
    var state: ExecutionState?

    function View(): Host
      reads this, state
    {
      Host(state != null, if state == null then NO_STATE else state.TheState(), rejectedCalls, testAttempts)
    }

    constructor (helpers: Helpers)
      ensures this.helpers == helpers
      ensures View() == Host(false, NO_STATE, {}, map[])
    {
      this.helpers := helpers;
      rejectedCalls, testAttempts, state := {}, map[], null;
    }

    /** The counters start over and the execution state is gone. */
    method ResetRequestState()
      modifies this
      ensures View() == Host(false, NO_STATE, {}, map[])
    {
      rejectedCalls, testAttempts, state := {}, map[], null;
    }

    /** How run_openai_loop opens a request: a fresh state, the counters as they are. */
    method BeginRequest(intent: Intent, name: Option<string>)
      modifies this
      ensures View() == Host(true, Fresh(intent, name), old(rejectedCalls), old(testAttempts))
      ensures fresh(state)
    {
      state := new ExecutionState(intent, name);
    }

    method ValidateCallAgainstState(call: Call) returns (refusal: Option<Refusal>)
      ensures refusal == Guard(helpers, View(), call)
    {
      if state == null {
        return None;
      }
      refusal := state.ValidateCall(helpers, call);
    }

    /** True when the limit stops the call; otherwise the attempt is counted. */
    method EnforceTestRetryLimit(call: Call) returns (stopped: bool)
      modifies this`testAttempts, state
      ensures stopped == OverLimit(old(View()), call)
      ensures View() == if stopped then Limited(old(View())) else Counted(old(View()), call)
    {
      if !call.tool.RunTests? {
        return false;
      }
      var name := TestName(call);
      var attempts := if name in testAttempts then testAttempts[name] else 0;
      if attempts >= MAX_TEST_ATTEMPTS {
        if state != null {
          state.MarkLimitReached();
        }
        return true;
      }
      testAttempts := testAttempts[name := attempts + 1];
      return false;
    }

    method RecordRejection(call: Call)
      modifies this`rejectedCalls, state
      ensures View() == Rejected(helpers, old(View()), call)
    {
      rejectedCalls := rejectedCalls + {helpers.key(call)};
      if state != null {
        state.MarkTurnedDown(call);
      }
    }

    method UpdateExecutionState(call: Call, r: ToolResult)
      modifies state
      ensures Outcome(View(), Some(call)) == Performed(helpers, old(View()), call, r)
    {
      if state != null {
        state.Update(helpers, call, Reconciled(state.TheState(), call, r));
      }
    }

    /** Approval, the client call and the update; the answer holds what the user and the client would say. */
    method CallClient(call: Call, mode: ApprovalMode, answer: Answer) returns (reached: Option<Call>)
      modifies this`rejectedCalls, state
      ensures Outcome(View(), reached) == AfterApproval(helpers, old(View()), call, mode, answer)
    {
      if call.sensitive && mode.Prompt? {
        if state != null && call.tool in state.rejectedTools {
          return None;
        }
        if !answer.approved {
          RecordRejection(call);
          return None;
        }
      }
      UpdateExecutionState(call, answer.result);
      return Some(call);
    }

    method HandleLocalCall(call: Call, mode: ApprovalMode, answer: Answer) returns (reached: Option<Call>)
      modifies this`rejectedCalls, this`testAttempts, state
      ensures Outcome(View(), reached) == HandleCall(helpers, old(View()), call, mode, answer)
    {
      if helpers.key(call) in rejectedCalls {
        return None;
      }
      var refusal := ValidateCallAgainstState(call);
      if refusal.Some? {
        return None;
      }
      var stopped := EnforceTestRetryLimit(call);
      if stopped {
        return None;
      }
      reached := CallClient(call, mode, answer);
    }

    method HandleFunctionCall(request: Request, mode: ApprovalMode, answer: Answer) returns (reached: Option<Call>)
      modifies this`rejectedCalls, this`testAttempts, state
      ensures Outcome(View(), reached) == Handle(helpers, old(View()), request, mode, answer)
    {
      if !request.Valid? {
        return None;
      }
      var local := Localized(helpers, View(), request.call);
      if local.None? {
        return None;
      }
      reached := HandleLocalCall(local.value, mode, answer);
    }
  }
}
