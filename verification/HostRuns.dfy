/** What every run of the Host keeps: order of stages, number of fixes, number of test runs, rejections. */
module HostRuns {
  import opened Prelude
  import opened HostState

  // ---------------------------------------------------------------- guided runs

  /**
   * run_openai_loop: while the state is not terminal a round offers one tool, the calls of the round use that tool,
   * and the first sensitive call that reaches its client closes the round.
   */
  datatype Turn = NewRound | CallTool(request: Request, mode: ApprovalMode, answer: Answer)

  datatype Guided = Guided(host: Host, offer: Option<Tool>, closed: bool)

  /** Tools of the standard servers need approval exactly when they are listed as sensitive. */
  predicate Registered(call: Call) {
    !call.tool.OtherTool? ==>
      call.sensitive == (call.tool.CreateProject? || call.tool.UpdateFiles? || call.tool.PrepareEnvironment? || call.tool.RunTests?)
  }

  ghost predicate Step(helpers: Helpers, registry: set<Tool>, before: Guided, turn: Turn, after: Guided) {
    && !IsTerminal(before.host.state)
    && match turn
       case NewRound =>
         && AllowedTool(before.host.state, registry).Some?
         && after == Guided(before.host, AllowedTool(before.host.state, registry), false)
       case CallTool(request, mode, answer) =>
         var o := Handle(helpers, before.host, request, mode, answer);
         && !before.closed
         && (request.Valid? ==> before.offer == Some(request.call.tool) && Registered(request.call))
         && after == Guided(o.host, before.offer, o.reached.Some? && o.reached.value.sensitive)
  }

  /** The states a guided run passes through, one turn after another, from a fresh request. */
  ghost predicate GuidedRun(helpers: Helpers, registry: set<Tool>, states: seq<Guided>, turns: seq<Turn>) {
    && |states| == |turns| + 1
    && states[0].offer.None? && states[0].host.active
    && states[0].host.state == Fresh(states[0].host.state.intent, states[0].host.state.requestedName)
    && forall i :: 0 <= i < |turns| ==> Step(helpers, registry, states[i], turns[i], states[i + 1])
  }

  predicate Planned(intent: Intent, p: Progress) {
    intent.CreateIntent? ==> p.analysisCompleted && p.tasksCreated
  }

  /** The stages reached so far were reached in order. */
  predicate StagesInOrder(intent: Intent, p: Progress) {
    && (p.testsExecuted ==> p.environmentPrepared)
    && (p.environmentPrepared ==> p.framework.Some?)
    && (p.framework.Some? ==> ProjectKnown(p) && p.workspaceInspected)
    && (p.workspaceInspected ==> Planned(intent, p))
    && (p.tasksCreated ==> p.analysisCompleted)
    && (p.projectCreated ==> p.workspaceInspected)
  }

  /** Why a third fix cannot be counted: the phases that lead to one are entered only below the limit. */
  predicate RepairBounded(r: Repair, testsExecuted: bool) {
    && r.attempts <= MAX_REPAIR_ATTEMPTS
    && (r.phase.ReadFailingTest? || r.phase.ReadRelatedSource? || r.phase.ApplyFix? ==> r.attempts < MAX_REPAIR_ATTEMPTS)
    && (r.phase.NotStarted? ==> r.attempts < MAX_REPAIR_ATTEMPTS || r.failingTestFiles == [])
    && (!testsExecuted ==> r.phase.NotStarted? && r.attempts == 0)
  }

  predicate Detected(intent: Intent, p: Progress) {
    p.framework.Some? && ProjectKnown(p) && p.workspaceInspected && Planned(intent, p)
  }

  /** What still holds in a later call of a round that offered this tool. */
  predicate Ready(s: State, offered: Tool) {
    match offered
    case AnalyzeRequirement => true
    case CreateTasks => s.progress.analysisCompleted
    case ListFiles => Planned(s.intent, s.progress)
    case CreateProject => s.progress.workspaceInspected
    case DetectFramework => ProjectKnown(s.progress) && s.progress.workspaceInspected
    case PrepareEnvironment => Detected(s.intent, s.progress) && !s.progress.testsExecuted
    case RunTests => Detected(s.intent, s.progress) && s.progress.environmentPrepared
    case ReadFile => DetermineNextAction(s).FixFailedTests?
    case UpdateFiles => s.repair.phase.ApplyFix?
    case _ => false
  }

  predicate Sound(s: State) {
    StagesInOrder(s.intent, s.progress) && RepairBounded(s.repair, s.progress.testsExecuted)
  }

  predicate Good(s: State, t: Tool) {
    Sound(s) && Ready(s, t) && !IsTerminal(s)
  }

  predicate Kept(s: State, t: Tool) {
    Sound(s) && (!IsTerminal(s) ==> Ready(s, t))
  }

  ghost predicate Invariant(g: Guided) {
    && g.host.active && Sound(g.host.state)
    && (g.offer.Some? && !g.closed && !IsTerminal(g.host.state) ==> Ready(g.host.state, g.offer.value))
  }

  lemma OfferedIsReady(s: State, registry: set<Tool>)
    requires Sound(s) && !IsTerminal(s) && AllowedTool(s, registry).Some?
    ensures Ready(s, AllowedTool(s, registry).value)
  {
  }

  lemma ListKeepsOrder(intent: Intent, p: Progress, wanted: Option<string>, listed: Option<bool>, failed: bool)
    requires StagesInOrder(intent, p) && Planned(intent, p) && (listed == Some(true) ==> wanted.Some?)
    ensures
      var q := ProgressListed(p, wanted, listed, failed);
      StagesInOrder(intent, q) && Planned(intent, q) && q.testsExecuted == p.testsExecuted
  {
  }

  lemma ListKeeps(helpers: Helpers, s: State, call: Call, r: ToolResult)
    requires Good(s, ListFiles) && call.tool == ListFiles
    ensures Kept(Updated(helpers, s, call, r), ListFiles)
  {
    var noted := Noted(s, call, r);
    var after := Updated(helpers, s, call, r);
    ListKeepsOrder(s.intent, s.progress, Truthy(s.requestedName), Listed(noted, r), r.isError);
    assert after.progress == ProgressListed(s.progress, Truthy(s.requestedName), Listed(noted, r), r.isError);
    assert after.repair == s.repair && after.intent == s.intent;
  }

  lemma NamedKeepsOrder(intent: Intent, p: Progress, name: string)
    requires StagesInOrder(intent, p) && p.workspaceInspected
    ensures StagesInOrder(intent, p.(projectExists := true, createdName := Some(name)))
    ensures StagesInOrder(intent, p.(projectCreated := true, createdName := Some(name)))
  {
  }

  lemma CreateCases(p: Progress, call: Call, r: ToolResult)
    ensures
      var q := AfterCreate(p, call, r);
      || q == p
      || (r.payload.Some? && q == p.(projectExists := true, createdName := Some(NameOf(call, r.payload.value))))
      || (r.payload.Some? && q == p.(projectCreated := true, createdName := Some(NameOf(call, r.payload.value))))
  {
  }

  lemma CreateKeepsOrder(intent: Intent, p: Progress, call: Call, r: ToolResult)
    requires StagesInOrder(intent, p) && p.workspaceInspected
    ensures
      var q := AfterCreate(p, call, r);
      StagesInOrder(intent, q) && q.workspaceInspected && q.testsExecuted == p.testsExecuted
  {
    CreateCases(p, call, r);
    if r.payload.Some? {
      NamedKeepsOrder(intent, p, NameOf(call, r.payload.value));
    }
  }

  lemma CreateKeeps(helpers: Helpers, s: State, call: Call, r: ToolResult)
    requires Good(s, CreateProject) && call.tool == CreateProject
    ensures Kept(Updated(helpers, s, call, r), CreateProject)
  {
    CreateKeepsOrder(s.intent, s.progress, call, r);
    var after := Updated(helpers, s, call, r);
    assert after.progress == AfterCreate(s.progress, call, r) && after.repair == s.repair && after.intent == s.intent;
  }

  lemma DetectKeeps(helpers: Helpers, s: State, call: Call, r: ToolResult)
    requires Good(s, DetectFramework) && call.tool == DetectFramework
    ensures Kept(Updated(helpers, s, call, r), DetectFramework)
  {
  }

  lemma PrepareKeeps(helpers: Helpers, s: State, call: Call, r: ToolResult)
    requires Good(s, PrepareEnvironment) && call.tool == PrepareEnvironment
    ensures Kept(Updated(helpers, s, call, r), PrepareEnvironment)
  {
  }

  lemma PlanKeeps(helpers: Helpers, s: State, call: Call, r: ToolResult)
    requires Good(s, call.tool) && (call.tool == AnalyzeRequirement || call.tool == CreateTasks)
    ensures Kept(Updated(helpers, s, call, r), call.tool)
  {
  }

  lemma ReadKeeps(helpers: Helpers, s: State, call: Call, r: ToolResult)
    requires Good(s, ReadFile) && call.tool == ReadFile
    requires Refused(helpers, s, call).None?
    ensures Kept(Updated(helpers, s, call, r), ReadFile)
  {
    assert RefusedRead(helpers, s, call).None?;
    assert s.progress.testsExecuted;
  }

  lemma UpdateKeeps(helpers: Helpers, s: State, call: Call, r: ToolResult)
    requires Good(s, UpdateFiles) && call.tool == UpdateFiles
    ensures Sound(Updated(helpers, s, call, r))
  {
  }

  /** A test run that is let through is the first one or follows a fix. */
  lemma TestsAllowed(helpers: Helpers, s: State, call: Call)
    requires Good(s, RunTests) && call.tool == RunTests
    requires Refused(helpers, s, call).None?
    ensures !s.progress.testsExecuted || s.repair.phase.RerunTests?
  {
  }

  lemma RepairAfterTestsKeeps(p: Repair, r: ToolResult, testsExecuted: bool)
    requires RepairBounded(p, testsExecuted) && (!testsExecuted || p.phase.RerunTests?)
    ensures RepairBounded(RepairAfterTests(p, r), true)
  {
  }

  lemma TestsKeep(helpers: Helpers, s: State, call: Call, r: ToolResult)
    requires Good(s, RunTests) && call.tool == RunTests
    requires Refused(helpers, s, call).None?
    ensures Kept(Updated(helpers, s, call, r), RunTests)
  {
    TestsAllowed(helpers, s, call);
    RepairAfterTestsKeeps(s.repair, r, s.progress.testsExecuted);
  }

  lemma UpdatedKeeps(helpers: Helpers, s: State, call: Call, r: ToolResult)
    requires Good(s, call.tool) && Refused(helpers, s, call).None?
    ensures Sound(Updated(helpers, s, call, r))
    ensures call.tool != UpdateFiles ==> Kept(Updated(helpers, s, call, r), call.tool)
  {
    match call.tool
    case AnalyzeRequirement => PlanKeeps(helpers, s, call, r);
    case CreateTasks => PlanKeeps(helpers, s, call, r);
    case ListFiles => ListKeeps(helpers, s, call, r);
    case CreateProject => CreateKeeps(helpers, s, call, r);
    case ReadFile => ReadKeeps(helpers, s, call, r);
    case UpdateFiles => UpdateKeeps(helpers, s, call, r);
    case DetectFramework => DetectKeeps(helpers, s, call, r);
    case PrepareEnvironment => PrepareKeeps(helpers, s, call, r);
    case RunTests => TestsKeep(helpers, s, call, r);
  }

  lemma ApprovalKeeps(helpers: Helpers, h: Host, call: Call, mode: ApprovalMode, answer: Answer)
    requires h.active && Good(h.state, call.tool) && Registered(call) && Refused(helpers, h.state, call).None?
    ensures
      var o := AfterApproval(helpers, h, call, mode, answer);
      && o.host.active && Sound(o.host.state)
      && (o.reached.Some? ==> o.reached.value == call)
      && (!IsTerminal(o.host.state) && !(o.reached.Some? && call.sensitive) ==> Ready(o.host.state, call.tool))
  {
    UpdatedKeeps(helpers, h.state, call, Reconciled(h.state, call, answer.result));
    RejectedKeeps(helpers, h, call);
  }

  lemma HandleCallKeeps(helpers: Helpers, h: Host, call: Call, mode: ApprovalMode, answer: Answer)
    requires h.active && Good(h.state, call.tool) && Registered(call)
    ensures
      var o := HandleCall(helpers, h, call, mode, answer);
      && o.host.active && Sound(o.host.state)
      && (o.reached.Some? ==> o.reached.value == call)
      && (!IsTerminal(o.host.state) && !(o.reached.Some? && call.sensitive) ==> Ready(o.host.state, call.tool))
  {
    LimitedKeeps(h);
    if Refused(helpers, h.state, call).None? {
      ApprovalKeeps(helpers, Counted(h, call), call, mode, answer);
    }
  }

  lemma LimitedKeeps(h: Host)
    requires h.active && Sound(h.state)
    ensures Limited(h).active && Sound(Limited(h).state) && IsTerminal(Limited(h).state)
  {
  }

  lemma RejectedKeeps(helpers: Helpers, h: Host, call: Call)
    requires h.active && Sound(h.state)
    ensures Rejected(helpers, h, call).active
    ensures Sound(Rejected(helpers, h, call).state) && IsTerminal(Rejected(helpers, h, call).state)
  {
  }

  lemma StepKeeps(helpers: Helpers, registry: set<Tool>, before: Guided, turn: Turn, after: Guided)
    requires Invariant(before) && Step(helpers, registry, before, turn, after)
    ensures Invariant(after)
  {
    match turn
    case NewRound => OfferedIsReady(before.host.state, registry);
    case CallTool(request, mode, answer) =>
      if request.Valid? {
        var call := Localized(helpers, before.host, request.call);
        if call.Some? {
          HandleCallKeeps(helpers, before.host, call.value, mode, answer);
        }
      }
  }

  lemma {:induction false} GuidedRunInvariant(helpers: Helpers, registry: set<Tool>, states: seq<Guided>, turns: seq<Turn>, i: nat)
    requires GuidedRun(helpers, registry, states, turns) && i < |states|
    ensures Invariant(states[i])
  {
    if i > 0 {
      GuidedRunInvariant(helpers, registry, states, turns, i - 1);
      StepKeeps(helpers, registry, states[i - 1], turns[i - 1], states[i]);
    }
  }

  /** In every guided run the stages keep their order. */
  lemma StageOrder(helpers: Helpers, registry: set<Tool>, states: seq<Guided>, turns: seq<Turn>, i: nat)
    requires GuidedRun(helpers, registry, states, turns) && i < |states|
    ensures
      var s := states[i].host.state;
      var p := s.progress;
      && (p.testsExecuted ==> p.environmentPrepared)
      && (p.environmentPrepared ==> p.framework.Some?)
      && (p.framework.Some? ==> (p.projectCreated || p.projectExists) && p.workspaceInspected)
      && (p.framework.Some? && s.intent.CreateIntent? ==> p.tasksCreated && p.analysisCompleted)
  {
    GuidedRunInvariant(helpers, registry, states, turns, i);
  }

  /** The call that reached its client in this turn, when it was a fix and it succeeded. */
  predicate FixApplied(helpers: Helpers, before: Guided, turn: Turn) {
    && turn.CallTool?
    && Handle(helpers, before.host, turn.request, turn.mode, turn.answer).reached.Some?
    && Handle(helpers, before.host, turn.request, turn.mode, turn.answer).reached.value.tool == UpdateFiles
    && BusinessSuccess(turn.answer.result)
  }

  function FixesApplied(helpers: Helpers, states: seq<Guided>, turns: seq<Turn>): nat
    requires |states| == |turns| + 1
  {
    if turns == [] then 0
    else
      var n := |turns| - 1;
      FixesApplied(helpers, states[..n + 1], turns[..n]) + if FixApplied(helpers, states[n], turns[n]) then 1 else 0
  }

  lemma UpdatedCounts(helpers: Helpers, s: State, call: Call, r: ToolResult)
    requires Good(s, call.tool) && Refused(helpers, s, call).None?
    ensures Updated(helpers, s, call, Reconciled(s, call, r)).repair.attempts
      == s.repair.attempts + if call.tool == UpdateFiles && BusinessSuccess(r) then 1 else 0
  {
  }

  lemma HandleCallCounts(helpers: Helpers, h: Host, call: Call, mode: ApprovalMode, answer: Answer)
    requires h.active && Good(h.state, call.tool)
    ensures
      var o := HandleCall(helpers, h, call, mode, answer);
      o.host.state.repair.attempts
      == h.state.repair.attempts + if o.reached.Some? && call.tool == UpdateFiles && BusinessSuccess(answer.result) then 1 else 0
  {
    if Refused(helpers, h.state, call).None? {
      UpdatedCounts(helpers, h.state, call, answer.result);
    }
  }

  lemma StepCounts(helpers: Helpers, registry: set<Tool>, before: Guided, turn: Turn, after: Guided)
    requires Invariant(before) && Step(helpers, registry, before, turn, after)
    ensures after.host.state.repair.attempts == before.host.state.repair.attempts + if FixApplied(helpers, before, turn) then 1 else 0
  {
    if turn.CallTool? && turn.request.Valid? {
      var call := Localized(helpers, before.host, turn.request.call);
      if call.Some? {
        HandleCallCounts(helpers, before.host, call.value, turn.mode, turn.answer);
        HandleCallKeeps(helpers, before.host, call.value, turn.mode, turn.answer);
      }
    }
  }

  lemma PrefixRun(helpers: Helpers, registry: set<Tool>, states: seq<Guided>, turns: seq<Turn>)
    requires GuidedRun(helpers, registry, states, turns) && turns != []
    ensures GuidedRun(helpers, registry, states[..|turns|], turns[..|turns| - 1])
  {
    var s, t := states[..|turns|], turns[..|turns| - 1];
    forall i | 0 <= i < |t| ensures Step(helpers, registry, s[i], t[i], s[i + 1]) {
      assert s[i] == states[i] && t[i] == turns[i] && s[i + 1] == states[i + 1];
    }
  }

  /** The counter is exactly the number of successful fixes that reached their client. */
  lemma {:induction false} CounterIsFixes(helpers: Helpers, registry: set<Tool>, states: seq<Guided>, turns: seq<Turn>)
    requires GuidedRun(helpers, registry, states, turns)
    ensures states[|turns|].host.state.repair.attempts == FixesApplied(helpers, states, turns)
    decreases |turns|
  {
    if turns != [] {
      var n := |turns| - 1;
      PrefixRun(helpers, registry, states, turns);
      CounterIsFixes(helpers, registry, states[..n + 1], turns[..n]);
      assert states[..n + 1][n] == states[n];
      GuidedRunInvariant(helpers, registry, states, turns, n);
      assert Step(helpers, registry, states[n], turns[n], states[n + 1]);
      StepCounts(helpers, registry, states[n], turns[n], states[n + 1]);
    }
  }

  /** In every guided run at most MAX_REPAIR_ATTEMPTS fixes are counted, and no more than that many succeed at their client. */
  lemma {:induction false} AtMostTwoFixes(helpers: Helpers, registry: set<Tool>, states: seq<Guided>, turns: seq<Turn>)
    requires GuidedRun(helpers, registry, states, turns)
    ensures FixesApplied(helpers, states, turns) == states[|turns|].host.state.repair.attempts <= MAX_REPAIR_ATTEMPTS
  {
    GuidedRunInvariant(helpers, registry, states, turns, |turns|);
    CounterIsFixes(helpers, registry, states, turns);
  }

  /** The Host itself does not check that a call was offered: outside guided runs the order can break. */
  lemma UnguidedOrderBreaks(helpers: Helpers, r: ToolResult)
    ensures
      var h := Host(true, Fresh(CreateIntent, None), {}, map[]);
      var after := Handle(helpers, h, Valid(Call(RunTests, false, None, "", None)), Prompt, Answer(true, r)).host.state;
      after.progress.testsExecuted && !after.progress.environmentPrepared
  {
    var h := Host(true, Fresh(CreateIntent, None), {}, map[]);
    var call := Call(RunTests, false, None, "", None);
    assert Localized(helpers, h, call) == Some(call);
    assert Refused(helpers, h.state, call).None?;
  }

  // ---------------------------------------------------------------- progress

  /** Position of the next action in the workflow; what comes later ranks higher. */
  function Rank(a: Action): int {
    match a
    case Use(AnalyzeRequirement) => 0
    case Use(CreateTasks) => 1
    case Use(ListFiles) => 2
    case Use(CreateProject) => 3
    case Use(DetectFramework) => 4
    case Use(PrepareEnvironment) => 5
    case Use(RunTests) => 6
    case Use(_) => -1
    case FixFailedTests => 7
    case Finalize => 8
  }

  /** What each tool returns when it did its work. */
  predicate Successful(t: Tool, r: ToolResult) {
    BusinessSuccess(r) && (t.DetectFramework? ==> Truthy(r.payload.value.framework).Some?)
  }

  /** The project asked for by name, and whether this listing shows it. */
  predicate Wanted(s: State, r: ToolResult) {
    s.requestedName.Some? && s.requestedName.value != "" && r.payload.Some? && r.payload.value.directories.Some?
  }

  predicate NameListed(s: State, r: ToolResult) {
    Wanted(s, r) && s.requestedName.value in r.payload.value.directories.value
  }

  /** What a successful result leads to, stage by stage. */
  function Successor(s: State, t: Tool, r: ToolResult): Action {
    match t
    case AnalyzeRequirement => Use(CreateTasks)
    case CreateTasks => Use(ListFiles)
    case ListFiles =>
      if s.intent.ReviewIntent? && Wanted(s, r) && !NameListed(s, r) then Finalize
      else if NameListed(s, r) || s.progress.projectExists then Use(DetectFramework)
      else if s.intent.ReviewIntent? then Finalize
      else Use(CreateProject)
    case CreateProject => Use(DetectFramework)
    case DetectFramework => Use(PrepareEnvironment)
    case PrepareEnvironment => Use(RunTests)
    case _ => Finalize
  }

  lemma SuccessorRanksHigher(s: State, t: Tool, r: ToolResult)
    requires Rank(Use(t)) >= 0
    ensures Rank(Successor(s, t, r)) > Rank(Use(t))
  {
  }

  lemma SuccessorReached(helpers: Helpers, s: State, call: Call, r: ToolResult)
    requires StagesInOrder(s.intent, s.progress) && DetermineNextAction(s) == Use(call.tool)
    requires Successful(call.tool, r)
    ensures DetermineNextAction(Updated(helpers, s, call, r)) == Successor(s, call.tool, r)
  {
  }

  /** A successful result of the action the state asks for always moves the workflow on, to the stage named. */
  lemma SuccessAdvances(helpers: Helpers, s: State, call: Call, r: ToolResult)
    requires StagesInOrder(s.intent, s.progress) && DetermineNextAction(s) == Use(call.tool)
    requires Successful(call.tool, r)
    ensures DetermineNextAction(Updated(helpers, s, call, r)) == Successor(s, call.tool, r)
    ensures Rank(Successor(s, call.tool, r)) > Rank(DetermineNextAction(s))
  {
    SuccessorRanksHigher(s, call.tool, r);
    SuccessorReached(helpers, s, call, r);
  }

  function PhaseRank(p: Phase): nat {
    match p
    case NotStarted => 0
    case ReadFailingTest => 0
    case ReadRelatedSource => 1
    case ApplyFix => 2
    case RerunTests => 3
    case Repaired => 4
  }

  /** During a repair a successful result of the expected tool moves the phase on, or ends the request with passing tests. */
  lemma RepairAdvances(helpers: Helpers, s: State, call: Call, r: ToolResult)
    requires DetermineNextAction(s).FixFailedTests? && RepairTool(s) == Some(call.tool)
    requires BusinessSuccess(r)
    ensures
      var after := Updated(helpers, s, call, r);
      if call.tool.RunTests? then DetermineNextAction(after).Finalize? && after.progress.testsPassed
      else PhaseRank(after.repair.phase) > PhaseRank(s.repair.phase)
  {
  }

  // ---------------------------------------------------------------- what a repair may touch

  predicate Writable(helpers: Helpers, failing: seq<string>, f: FileArgument) {
    && f.FileArgument? && helpers.clean(f.path) != "" && helpers.inside(helpers.clean(f.path))
    && (failing != [] ==> helpers.clean(f.path) in failing)
  }

  /** The guard's loop lets a list of files through exactly when each of them may be written. */
  lemma {:induction false} FilesLetThrough(helpers: Helpers, failing: seq<string>, files: seq<FileArgument>)
    ensures RefusedFiles(helpers, failing, files).None? <==> forall i :: 0 <= i < |files| ==> Writable(helpers, failing, files[i])
  {
    if files != [] {
      FilesLetThrough(helpers, failing, files[1..]);
      assert forall i :: 1 <= i < |files| ==> files[i] == files[1..][i - 1];
    }
  }

  /** A fix that is let through and succeeds has written nothing but failing test files, when any are known. */
  lemma RepairWritesOnlyFailingTests(helpers: Helpers, s: State, call: Call, r: ToolResult)
    requires DetermineNextAction(s).FixFailedTests? && call.tool == UpdateFiles
    requires Refused(helpers, s, call).None? && s.repair.failingTestFiles != []
    ensures call.files.Some? && Written(helpers, call.files) <= ToSet(s.repair.failingTestFiles)
    ensures Updated(helpers, s, call, r).repair.filesUpdated <= s.repair.filesUpdated + ToSet(s.repair.failingTestFiles)
    ensures ProjectName(s).Some? ==> call.projectName == ProjectName(s)
  {
    assert RefusedUpdate(helpers, s, call).None?;
    var failing := s.repair.failingTestFiles;
    FilesLetThrough(helpers, failing, call.files.value);
    forall p | p in Written(helpers, call.files) ensures p in ToSet(failing) {
      var f :| f in call.files.value && f.FileArgument? && p == helpers.clean(f.path);
      var i :| 0 <= i < |call.files.value| && call.files.value[i] == f;
      assert Writable(helpers, failing, call.files.value[i]);
    }
  }

  // ---------------------------------------------------------------- every run

  /** A call, or the graph adapter putting another state in place; nothing here clears the counters. */
  datatype Event = Asked(request: Request, mode: ApprovalMode, answer: Answer) | StateReplaced(state: State)

  function Next(helpers: Helpers, h: Host, e: Event): Outcome {
    match e
    case Asked(request, mode, answer) => Handle(helpers, h, request, mode, answer)
    case StateReplaced(state) => Outcome(h.(active := true, state := state), None)
  }

  /** What the Host does with one event. */
  function Machine(helpers: Helpers): (Host, Event) -> Outcome {
    (h: Host, e: Event) => Next(helpers, h, e)
  }

  function Play(step: (Host, Event) -> Outcome, h: Host, events: seq<Event>): Host {
    if events == [] then h
    else step(Play(step, h, events[..|events| - 1]), events[|events| - 1]).host
  }

  function AsList(call: Option<Call>): seq<Call> {
    if call.Some? then [call.value] else []
  }

  /** The calls that reached a client, in order. */
  function Reached(step: (Host, Event) -> Outcome, h: Host, events: seq<Event>): seq<Call> {
    if events == [] then []
    else
      var before := events[..|events| - 1];
      Reached(step, h, before) + AsList(step(Play(step, h, before), events[|events| - 1]).reached)
  }

  function TestRuns(calls: seq<Call>, name: string): nat {
    if calls == [] then 0
    else
      var last := calls[|calls| - 1];
      TestRuns(calls[..|calls| - 1], name) + if last.tool.RunTests? && TestName(last) == name then 1 else 0
  }

  lemma TestRunsAppend(calls: seq<Call>, call: Option<Call>, name: string)
    ensures TestRuns(calls + AsList(call), name) == TestRuns(calls, name) + TestRuns(AsList(call), name)
  {
    if call.Some? {
      assert (calls + [call.value])[..|calls|] == calls;
      assert [call.value][..0] == [];
    } else {
      assert calls + [] == calls;
    }
  }

  ghost predicate WithinLimit(h: Host) {
    forall name :: name in h.testAttempts ==> h.testAttempts[name] <= MAX_TEST_ATTEMPTS
  }

  /** One event counts every test run that reaches its client, and never counts past the limit. */
  lemma EventCounts(helpers: Helpers, h: Host, e: Event, name: string)
    requires WithinLimit(h)
    ensures
      var o := Next(helpers, h, e);
      && WithinLimit(o.host)
      && Attempts(h, name) + TestRuns(AsList(o.reached), name) <= Attempts(o.host, name)
  {
    var o := Next(helpers, h, e);
    if o.reached.Some? {
      assert [o.reached.value][..0] == [];
      CallCounts(helpers, h, e, name);
    } else {
      UnreachedCounts(helpers, h, e, name);
    }
  }

  lemma CallCounts(helpers: Helpers, h: Host, e: Event, name: string)
    requires WithinLimit(h) && Next(helpers, h, e).reached.Some?
    ensures
      var o := Next(helpers, h, e);
      && o.host.testAttempts == Counted(h, o.reached.value).testAttempts
      && WithinLimit(o.host)
      && (o.reached.value.tool.RunTests? && TestName(o.reached.value) == name ==> Attempts(o.host, name) == Attempts(h, name) + 1)
      && Attempts(h, name) <= Attempts(o.host, name)
  {
  }

  lemma CountedMore(h: Host, call: Call, name: string)
    requires WithinLimit(h) && !OverLimit(h, call)
    ensures WithinLimit(Counted(h, call)) && Attempts(h, name) <= Attempts(Counted(h, call), name)
  {
  }

  lemma UnreachedCounts(helpers: Helpers, h: Host, e: Event, name: string)
    requires WithinLimit(h)
    ensures
      var o := Next(helpers, h, e);
      WithinLimit(o.host) && Attempts(h, name) <= Attempts(o.host, name)
  {
    if e.Asked? && e.request.Valid? {
      var call := Localized(helpers, h, e.request.call);
      if call.Some? && !OverLimit(h, call.value) {
        CountedMore(h, call.value, name);
      }
    }
  }

  lemma {:induction false} RunsCounted(helpers: Helpers, h: Host, events: seq<Event>, name: string)
    requires WithinLimit(h)
    ensures WithinLimit(Play(Machine(helpers), h, events))
    ensures Attempts(h, name) + TestRuns(Reached(Machine(helpers), h, events), name) <= Attempts(Play(Machine(helpers), h, events), name)
  {
    if events != [] {
      var before, last := events[..|events| - 1], events[|events| - 1];
      RunsCounted(helpers, h, before, name);
      EventCounts(helpers, Play(Machine(helpers), h, before), last, name);
      TestRunsAppend(Reached(Machine(helpers), h, before), Next(helpers, Play(Machine(helpers), h, before), last).reached, name);
    }
  }

  /** Between resets, run_tests reaches its client at most MAX_TEST_ATTEMPTS times for any project name, whatever is called. */
  lemma TestRunsBounded(helpers: Helpers, active: bool, state: State, rejected: set<string>, events: seq<Event>, name: string)
    ensures TestRuns(Reached(Machine(helpers), Host(active, state, rejected, map[]), events), name) <= MAX_TEST_ATTEMPTS
  {
    RunsCounted(helpers, Host(active, state, rejected, map[]), events, name);
  }

  /** Nothing sensitive reaches a client unapproved, and no call reaches one after it was rejected. */
  lemma ReachedWasAllowed(helpers: Helpers, h: Host, e: Event)
    ensures
      var o := Next(helpers, h, e);
      && (o.reached.Some? ==>
           && helpers.key(o.reached.value) !in h.rejectedCalls
           && (o.reached.value.sensitive && e.mode.Prompt? ==>
                e.answer.approved && (h.active ==> o.reached.value.tool !in h.state.log.rejectedTools)))
      && h.rejectedCalls <= o.host.rejectedCalls
  {
  }

  /** A call the user turns down ends the request, reaches nobody, and is remembered together with its tool. */
  lemma TurnedDownIsRemembered(helpers: Helpers, h: Host, call: Call, answer: Answer)
    requires h.active && Localized(helpers, h, call) == Some(call) && helpers.key(call) !in h.rejectedCalls
    requires Refused(helpers, h.state, call).None? && !OverLimit(h, call)
    requires call.sensitive && call.tool !in h.state.log.rejectedTools && !answer.approved
    ensures
      var o := Handle(helpers, h, Valid(call), Prompt, answer);
      && o.reached.None? && IsTerminal(o.host.state)
      && helpers.key(call) in o.host.rejectedCalls && call.tool in o.host.state.log.rejectedTools
      && o.host.state.progress == h.state.progress && o.host.state.repair == h.state.repair
  {
  }

  /** A rejected call never reaches its client later in the run. */
  lemma {:induction false} RejectedNeverReached(helpers: Helpers, h: Host, events: seq<Event>, key: string)
    requires key in h.rejectedCalls
    ensures forall call :: call in Reached(Machine(helpers), h, events) ==> helpers.key(call) != key
    ensures key in Play(Machine(helpers), h, events).rejectedCalls
  {
    if events != [] {
      var before := events[..|events| - 1];
      RejectedNeverReached(helpers, h, before, key);
      ReachedWasAllowed(helpers, Play(Machine(helpers), h, before), events[|events| - 1]);
    }
  }

  function SensitiveTools(calls: seq<Call>): seq<Tool> {
    if calls == [] then []
    else
      var last := calls[|calls| - 1];
      SensitiveTools(calls[..|calls| - 1]) + if last.sensitive then [last.tool] else []
  }

  lemma SensitiveAppend(calls: seq<Call>, call: Option<Call>)
    ensures SensitiveTools(calls + AsList(call)) == SensitiveTools(calls) + SensitiveTools(AsList(call))
  {
    if call.Some? {
      assert (calls + [call.value])[..|calls|] == calls;
      assert [call.value][..0] == [];
    } else {
      assert calls + [] == calls;
    }
  }

  /** The event extends the log by the sensitive call it let through, if it did. */
  predicate LogKept(h: Host, o: Outcome) {
    && o.host.active
    && o.host.state.log.sensitiveExecuted == h.state.log.sensitiveExecuted + SensitiveTools(AsList(o.reached))
  }

  lemma LogOfEvent(helpers: Helpers, h: Host, e: Event)
    requires e.Asked? && h.active
    ensures LogKept(h, Next(helpers, h, e))
  {
    var o := Next(helpers, h, e);
    if o.reached.Some? {
      assert [o.reached.value][..0] == [];
    }
  }

  ghost predicate KeepsLog(step: (Host, Event) -> Outcome) {
    forall h: Host, e: Event :: h.active && e.Asked? ==> LogKept(h, step(h, e))
  }

  lemma LogOfStep(step: (Host, Event) -> Outcome, h: Host, e: Event)
    requires KeepsLog(step) && h.active && e.Asked?
    ensures LogKept(h, step(h, e))
  {
  }

  /** Two pieces appended one after the other are appended together. */
  lemma Appended<T>(a: seq<T>, b: seq<T>, c: seq<T>)
    ensures (a + b) + c == a + (b + c)
  {
  }

  lemma {:induction false} LogThroughout(step: (Host, Event) -> Outcome, h: Host, events: seq<Event>)
    requires KeepsLog(step) && h.active && forall i :: 0 <= i < |events| ==> events[i].Asked?
    ensures Play(step, h, events).active
    ensures Play(step, h, events).state.log.sensitiveExecuted
      == h.state.log.sensitiveExecuted + SensitiveTools(Reached(step, h, events))
  {
    if events != [] {
      var before, last := events[..|events| - 1], events[|events| - 1];
      LogThroughout(step, h, before);
      var mid, calls := Play(step, h, before), Reached(step, h, before);
      var o := step(mid, last);
      LogOfStep(step, mid, last);
      SensitiveAppend(calls, o.reached);
      Appended(h.state.log.sensitiveExecuted, SensitiveTools(calls), SensitiveTools(AsList(o.reached)));
    }
  }

  /** The log of sensitive tools is exactly the sensitive calls that reached a client, in order. */
  lemma {:induction false} SensitiveLogExact(helpers: Helpers, h: Host, events: seq<Event>)
    requires h.active && forall e :: e in events ==> e.Asked?
    ensures Play(Machine(helpers), h, events).active
    ensures Play(Machine(helpers), h, events).state.log.sensitiveExecuted
      == h.state.log.sensitiveExecuted + SensitiveTools(Reached(Machine(helpers), h, events))
  {
    forall g: Host, e: Event | g.active && e.Asked? ensures LogKept(g, Machine(helpers)(g, e)) {
      LogOfEvent(helpers, g, e);
    }
    LogThroughout(Machine(helpers), h, events);
  }
}
