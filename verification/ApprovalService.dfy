/** Resolving a pending approval against the durable head (graph/persistence_service.py). */
module ApprovalService {
  import opened Prelude

  datatype Interrupt = Interrupt(operation: Option<string>, tool: Option<string>)

  /** What the graph reports about a thread when asked. */
  datatype Snapshot = Snapshot(
    present: bool,
    terminal: bool,
    pendingOperation: Option<string>,
    pendingTool: Option<string>,
    interrupts: seq<Interrupt>,
    checkpoint: Option<string>,
    forkOrigin: Option<string>)

  datatype Reference = Reference(thread: string, checkpoint: string, operation: string, tool: string)

  datatype Problem = NotFound | AlreadyCompleted | NotInterrupted | Stale | GraphFailed

  function DefaultTool(operation: Option<string>): Option<string> {
    if operation == Some("create_project") then Some("filesystem__create_project_structure")
    else if operation == Some("prepare_environment") then Some("testing__prepare_test_environment")
    else if operation == Some("run_tests") then Some("testing__run_tests")
    else if operation == Some("apply_fix") then Some("filesystem__update_project_files")
    else None
  }

  /** A terminal status does not count while a complete approval is pending. */
  predicate EffectivelyTerminal(s: Snapshot) {
    s.terminal && !(s.interrupts != [] && s.pendingOperation.Some? && s.pendingTool.Some?)
  }

  /** _load_current_pending_state */
  function Current(thread: string, s: Snapshot): Result<Reference, Problem> {
    if !s.present then Err(NotFound)
    else if EffectivelyTerminal(s) then Err(AlreadyCompleted)
    else if s.interrupts == [] then Err(NotInterrupted)
    else
      var operation := Truthy(Or(s.pendingOperation, s.interrupts[0].operation));
      var tool := Truthy(Or(Or(s.pendingTool, s.interrupts[0].tool), DefaultTool(operation)));
      var checkpoint := Truthy(s.checkpoint);
      if checkpoint.None? || operation.None? || tool.None? then Err(NotInterrupted)
      else Ok(Reference(thread, checkpoint.value, operation.value, tool.value))
  }

  /** What a resumed approval is remembered by; the branch is the fork it belongs to. */
  datatype Key = Key(branch: string, reference: Reference)

  function KeyOf(reference: Reference, s: Snapshot): Key {
    Key(if Truthy(s.forkOrigin).Some? then s.forkOrigin.value else "original", reference)
  }

  /** One request to approve or reject, with the two looks at the head and whether the graph then fails. */
  datatype Call = Call(
    thread: string,
    approved: bool,
    expected: Option<Reference>,
    first: Snapshot,
    second: Snapshot,
    graphFails: bool)

  datatype Resume = Resume(key: Key, approved: bool)

  /** The remembered keys, and the resumes the graph was asked for and completed. */
  datatype Service = Service(resolved: set<Key>, started: seq<Resume>, completed: seq<Resume>)

  /** The head both looks agree on and the caller accepts, when there is one. */
  function Agreed(call: Call): Result<Reference, Problem> {
    var current := Current(call.thread, call.first);
    if current.Err? then current
    else if call.expected.Some? && call.expected.value != current.value then Err(Stale)
    else
      var refreshed := Current(call.thread, call.second);
      if refreshed.Err? then refreshed
      else if refreshed.value != current.value then Err(Stale)
      else current
  }

  function Resolve(s: Service, call: Call): Service {
    var agreed := Agreed(call);
    if agreed.Err? then s
    else
      var key := KeyOf(agreed.value, call.second);
      var resume := Resume(key, call.approved);
      if key in s.resolved then s
      else if call.graphFails then s.(started := s.started + [resume])
      else Service(s.resolved + {key}, s.started + [resume], s.completed + [resume])
  }

  /** What the caller is told; None when the graph went on. */
  function ProblemOf(s: Service, call: Call): Option<Problem> {
    var agreed := Agreed(call);
    if agreed.Err? then Some(agreed.error)
    else if KeyOf(agreed.value, call.second) in s.resolved then Some(Stale)
    else if call.graphFails then Some(GraphFailed)
    else None
  }

  class WorkflowPersistenceService {
    var resolvedApprovalKeys: set<Key>
    /** Stands for the graph: what it was asked to resume, and what it resumed without failing. */
    var started: seq<Resume>
    var completed: seq<Resume>

    function View(): Service
      reads this
    {
      Service(resolvedApprovalKeys, started, completed)
    }

    constructor ()
      ensures View() == Service({}, [], [])
    {
      resolvedApprovalKeys, started, completed := {}, [], [];
    }

    /** A failed resume leaves no key behind, so it may be tried again. */
    method ResolveApproval(call: Call) returns (problem: Option<Problem>)
      modifies this
      ensures View() == Resolve(old(View()), call)
      ensures problem == ProblemOf(old(View()), call)
    {
      var current := Current(call.thread, call.first);
      if current.Err? {
        return Some(current.error);
      }
      if call.expected.Some? && call.expected.value != current.value {
        return Some(Stale);
      }
      var refreshed := Current(call.thread, call.second);
      if refreshed.Err? {
        return Some(refreshed.error);
      }
      if refreshed.value != current.value {
        return Some(Stale);
      }
      var key := KeyOf(current.value, call.second);
      if key in resolvedApprovalKeys {
        return Some(Stale);
      }
      started := started + [Resume(key, call.approved)];
      if call.graphFails {
        return Some(GraphFailed);
      }
      completed := completed + [Resume(key, call.approved)];
      resolvedApprovalKeys := resolvedApprovalKeys + {key};
      return None;
    }
  }

  // ---------------------------------------------------------------- every sequence of calls

  function Serve(s: Service, calls: seq<Call>): Service {
    if calls == [] then s else Resolve(Serve(s, calls[..|calls| - 1]), calls[|calls| - 1])
  }

  const FRESH: Service := Service({}, [], [])

  ghost predicate KeysDistinct(resumes: seq<Resume>) {
    forall i, j :: 0 <= i < j < |resumes| ==> resumes[i].key != resumes[j].key
  }

  ghost predicate HasKey(resumes: seq<Resume>, k: Key) {
    exists i :: 0 <= i < |resumes| && resumes[i].key == k
  }

  ghost predicate Remembered(s: Service) {
    && KeysDistinct(s.completed)
    && (forall k :: k in s.resolved <==> HasKey(s.completed, k))
  }

  lemma OneMoreRemembered(completed: seq<Resume>, resume: Resume)
    requires KeysDistinct(completed)
    requires !HasKey(completed, resume.key)
    ensures KeysDistinct(completed + [resume])
    ensures forall k :: HasKey(completed + [resume], k) == (k == resume.key || HasKey(completed, k))
  {
    var longer := completed + [resume];
    assert forall i :: 0 <= i < |completed| ==> longer[i] == completed[i];
    assert longer[|completed|] == resume;
  }

  lemma ResolveRemembers(s: Service, call: Call)
    requires Remembered(s)
    ensures Remembered(Resolve(s, call))
  {
    var t := Resolve(s, call);
    if t.completed != s.completed {
      OneMoreRemembered(s.completed, t.completed[|s.completed|]);
    }
  }

  /** At most one resume completes for any key, whatever is called in whatever order. */
  lemma {:induction false} OneResumePerKey(calls: seq<Call>)
    ensures Remembered(Serve(FRESH, calls))
    ensures KeysDistinct(Serve(FRESH, calls).completed)
  {
    if calls != [] {
      OneResumePerKey(calls[..|calls| - 1]);
      ResolveRemembers(Serve(FRESH, calls[..|calls| - 1]), calls[|calls| - 1]);
    }
  }

  /** A resume the graph was asked for belongs to a call whose head was current on both looks and not contradicted by the caller. */
  ghost predicate Justified(r: Resume, call: Call) {
    && Current(call.thread, call.first) == Ok(r.key.reference)
    && Current(call.thread, call.second) == Ok(r.key.reference)
    && (call.expected.Some? ==> call.expected.value == r.key.reference)
    && r.key == KeyOf(r.key.reference, call.second)
    && r.approved == call.approved
  }

  lemma ResolveJustified(s: Service, call: Call)
    ensures
      var t := Resolve(s, call);
      t.started == s.started
      || (|t.started| == |s.started| + 1 && t.started[..|s.started|] == s.started && Justified(t.started[|s.started|], call)
          && t.started[|s.started|].key !in s.resolved)
  {
  }

  /** Every resume of the graph, completed or not, targeted the head its caller saw. */
  lemma {:induction false} ResumesTargetHead(calls: seq<Call>, r: Resume)
    requires r in Serve(FRESH, calls).started
    ensures exists i :: 0 <= i < |calls| && Justified(r, calls[i])
  {
    var before, last := calls[..|calls| - 1], calls[|calls| - 1];
    var s := Serve(FRESH, before);
    ResolveJustified(s, last);
    if r in s.started {
      ResumesTargetHead(before, r);
      var i :| 0 <= i < |before| && Justified(r, before[i]);
      assert calls[i] == before[i];
    } else {
      assert Justified(r, calls[|calls| - 1]);
    }
  }

  /** A caller holding an out-of-date reference never resumes the graph. */
  lemma StaleCallerNeverResumes(s: Service, call: Call)
    requires call.expected.Some? && Current(call.thread, call.first) != Ok(call.expected.value)
    ensures Resolve(s, call) == s
  {
  }

  /** Nor does one whose head moved between the two looks. */
  lemma MovedHeadNeverResumes(s: Service, call: Call)
    requires Current(call.thread, call.first) != Current(call.thread, call.second)
    ensures Resolve(s, call) == s
  {
  }

  // ---------------------------------------------------------------- which calls are delivered

  predicate Said(x: Option<string>) {
    x.Some? && x.value != ""
  }

  /** x is the first of the options that says something. */
  predicate FirstSaid(x: string, a: Option<string>, b: Option<string>) {
    x != "" && (a == Some(x) || (!Said(a) && b == Some(x)))
  }

  /** The tool a pending operation runs by default; None for an operation without one. */
  predicate RunsBy(operation: string, tool: string) {
    || (operation == "create_project" && tool == "filesystem__create_project_structure")
    || (operation == "prepare_environment" && tool == "testing__prepare_test_environment")
    || (operation == "run_tests" && tool == "testing__run_tests")
    || (operation == "apply_fix" && tool == "filesystem__update_project_files")
  }

  /** The thread waits at an interrupt that is not already over. */
  predicate Waiting(s: Snapshot) {
    s.present && s.interrupts != [] && (s.terminal ==> s.pendingOperation.Some? && s.pendingTool.Some?)
  }

  /** The durable head: its checkpoint, and the operation and tool the state names, or its interrupt, or the operation's default. */
  predicate HeadIs(thread: string, s: Snapshot, r: Reference) {
    && Waiting(s) && r.thread == thread
    && r.checkpoint != "" && s.checkpoint == Some(r.checkpoint)
    && FirstSaid(r.operation, s.pendingOperation, s.interrupts[0].operation)
    && (FirstSaid(r.tool, s.pendingTool, s.interrupts[0].tool)
        || (!Said(s.pendingTool) && !Said(s.interrupts[0].tool) && RunsBy(r.operation, r.tool)))
  }

  lemma FirstSaidIs(x: string, a: Option<string>, b: Option<string>)
    ensures Truthy(Or(a, b)) == Some(x) <==> FirstSaid(x, a, b)
  {
  }

  lemma ToolIs(tool: string, operation: string, a: Option<string>, b: Option<string>)
    ensures Truthy(Or(Or(a, b), DefaultTool(Some(operation)))) == Some(tool)
      <==> FirstSaid(tool, a, b) || (!Said(a) && !Said(b) && RunsBy(operation, tool))
  {
  }

  lemma HeadIff(thread: string, s: Snapshot, r: Reference)
    ensures Current(thread, s) == Ok(r) <==> HeadIs(thread, s, r)
  {
    if s.interrupts != [] {
      FirstSaidIs(r.operation, s.pendingOperation, s.interrupts[0].operation);
      ToolIs(r.tool, r.operation, s.pendingTool, s.interrupts[0].tool);
    }
  }

  /** And what is said of a thread without one. */
  lemma HeadMissing(thread: string, s: Snapshot)
    ensures Current(thread, s) == Err(NotFound) <==> !s.present
    ensures Current(thread, s) == Err(AlreadyCompleted) <==>
      s.present && s.terminal && (s.interrupts == [] || s.pendingOperation.None? || s.pendingTool.None?)
    ensures Current(thread, s).Err? ==> Current(thread, s).error in {NotFound, AlreadyCompleted, NotInterrupted}
  {
  }

  /** Both looks show the head r, and the caller expects no other. */
  predicate AgreedOn(call: Call, r: Reference) {
    HeadIs(call.thread, call.first, r) && HeadIs(call.thread, call.second, r) && (call.expected.Some? ==> call.expected.value == r)
  }

  function KeyFor(call: Call, r: Reference): Key {
    Key(if Said(call.second.forkOrigin) then call.second.forkOrigin.value else "original", r)
  }

  lemma AgreedIff(call: Call, r: Reference)
    ensures Agreed(call) == Ok(r) <==> AgreedOn(call, r)
  {
    HeadIff(call.thread, call.first, r);
    HeadIff(call.thread, call.second, r);
  }

  /** A decision on the current head that was not resolved before reaches the graph, a rejection as well as an approval. */
  lemma DecisionDelivered(s: Service, call: Call, r: Reference)
    requires AgreedOn(call, r) && KeyFor(call, r) !in s.resolved
    ensures
      var t, resume := Resolve(s, call), Resume(KeyFor(call, r), call.approved);
      && t.started == s.started + [resume]
      && t.completed == s.completed + (if call.graphFails then [] else [resume])
      && t.resolved == s.resolved + (if call.graphFails then {} else {KeyFor(call, r)})
      && ProblemOf(s, call) == if call.graphFails then Some(GraphFailed) else None
  {
    AgreedIff(call, r);
  }

  /** No other call does anything, and the caller is told why. */
  lemma OthersRefused(s: Service, call: Call)
    requires forall r :: AgreedOn(call, r) ==> KeyFor(call, r) in s.resolved
    ensures Resolve(s, call) == s && ProblemOf(s, call).Some? && ProblemOf(s, call).value != GraphFailed
    ensures Current(call.thread, call.first).Err? ==> ProblemOf(s, call) == Some(Current(call.thread, call.first).error)
    ensures Current(call.thread, call.first).Ok? && Current(call.thread, call.second).Ok? ==> ProblemOf(s, call) == Some(Stale)
  {
    var agreed := Agreed(call);
    if agreed.Ok? {
      AgreedIff(call, agreed.value);
      assert AgreedOn(call, agreed.value);
    }
  }

  /** This call decides k and the graph does not fail. */
  ghost predicate Decides(call: Call, k: Key) {
    AgreedOn(call, k.reference) && k == KeyFor(call, k.reference) && !call.graphFails
  }

  lemma {:induction false} ResolvedWasDecided(calls: seq<Call>, k: Key)
    requires k in Serve(FRESH, calls).resolved
    ensures exists i :: 0 <= i < |calls| && Decides(calls[i], k)
  {
    var before, last := calls[..|calls| - 1], calls[|calls| - 1];
    if k in Serve(FRESH, before).resolved {
      ResolvedWasDecided(before, k);
      var i :| 0 <= i < |before| && Decides(before[i], k);
      assert calls[i] == before[i];
    } else {
      AgreedIff(last, k.reference);
      assert Decides(calls[|calls| - 1], k);
    }
  }

  lemma {:induction false} UndecidedIsOpen(calls: seq<Call>, k: Key)
    requires forall j :: 0 <= j < |calls| ==> !Decides(calls[j], k)
    ensures k !in Serve(FRESH, calls).resolved
  {
    if k in Serve(FRESH, calls).resolved {
      ResolvedWasDecided(calls, k);
    }
  }

  /** Of all calls that decide a key the first one stands, whatever else is called before, in between or after. */
  lemma {:induction false} FirstDecisionStands(calls: seq<Call>, i: nat, k: Key)
    requires i < |calls| && Decides(calls[i], k)
    requires forall j :: 0 <= j < i ==> !Decides(calls[j], k)
    ensures Resume(k, calls[i].approved) in Serve(FRESH, calls).completed
  {
    var before, last := calls[..|calls| - 1], calls[|calls| - 1];
    if i < |before| {
      assert before[i] == calls[i] && forall j :: 0 <= j < i ==> before[j] == calls[j];
      FirstDecisionStands(before, i, k);
    } else {
      assert forall j :: 0 <= j < |before| ==> before[j] == calls[j];
      UndecidedIsOpen(before, k);
      DecisionDelivered(Serve(FRESH, before), last, k.reference);
    }
  }
}
