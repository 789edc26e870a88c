/** Carrying graph state into the Host and back (tool_executor.py). */
module ToolExecutor {
  import opened Prelude
  import opened Sorting

  /** A Python value; a list or set of names is told apart from the others because the adapter converts between the two. */
  datatype Value =
    | Nothing
    | Flag(on: bool)
    | Number(n: int)
    | Text(text: string)
    | Names(names: seq<string>)
    | NameSet(elements: set<string>)

  type Dict = map<string, Value>

  /** dict.get(key) */
  function Get(d: Dict, key: string): Value {
    if key in d then d[key] else Nothing
  }

  const READ_FILES := "files_read_during_repair"
  const UPDATED_FILES := "files_updated_during_repair"
  const PROJECT := "project_name"
  const REQUESTED := "requested_project_name"
  const CANCELLED := "user_cancelled"
  const TERMINAL := "terminal_status"

  /** The two classes: the Host's fields with their defaults, and the keys of the graph state. */
  datatype Schema = Schema(hostDefaults: Dict, graphKeys: set<string>) {
    function Shared(): set<string> {
      hostDefaults.Keys * graphKeys
    }
  }

  /** What the two declarations satisfy: see RealDeclarations. */
  ghost predicate Declared(schema: Schema) {
    && {READ_FILES, UPDATED_FILES, REQUESTED, CANCELLED, TERMINAL} <= schema.hostDefaults.Keys
    && {READ_FILES, UPDATED_FILES, CANCELLED, TERMINAL, PROJECT} <= schema.graphKeys
    && REQUESTED !in schema.graphKeys
    && PROJECT !in schema.hostDefaults
    && schema.hostDefaults[CANCELLED] == Flag(false)
    && schema.hostDefaults[TERMINAL] == Nothing
    && forall k :: k in schema.Shared() ==> !schema.hostDefaults[k].NameSet? || k == READ_FILES || k == UPDATED_FILES
  }

  /** set(state.get(key, [])): only a list can be there. */
  predicate ListOrAbsent(graph: Dict, key: string) {
    key in graph ==> graph[key].Names?
  }

  /** The graph state as the workflow keeps it: lists where lists belong, and no Python set anywhere. */
  ghost predicate WellTyped(graph: Dict) {
    && ListOrAbsent(graph, READ_FILES) && ListOrAbsent(graph, UPDATED_FILES)
    && (forall k :: k in graph ==> !graph[k].NameSet?)
  }

  function ListAt(graph: Dict, key: string): seq<string>
    requires ListOrAbsent(graph, key)
  {
    if key in graph then graph[key].names else []
  }

  /** _execution_state_from_graph */
  function ExecutionStateFrom(schema: Schema, graph: Dict): (host: Dict)
    requires Declared(schema) && WellTyped(graph)
    ensures host.Keys == schema.hostDefaults.Keys
  {
    map k | k in schema.hostDefaults ::
      if k == REQUESTED then Get(graph, PROJECT)
      else if k == READ_FILES || k == UPDATED_FILES then NameSet(ToSet(ListAt(graph, k)))
      else if k in graph then graph[k]
      else schema.hostDefaults[k]
  }

  function Listed(v: Value): Value {
    if v.NameSet? then StringOrder(); Names(Sorted(StringLess, v.elements)) else v
  }

  predicate IsTruthy(v: Value) {
    match v
    case Nothing => false
    case Flag(on) => on
    case Number(n) => n != 0
    case Text(text) => text != ""
    case Names(names) => names != []
    case NameSet(s) => s != {}
  }

  /** Python's falsy values. */
  lemma FalsyValues(v: Value)
    ensures !IsTruthy(v) <==> v in {Nothing, Flag(false), Number(0), Text(""), Names([]), NameSet({})}
  {
  }

  /** _graph_values_from_execution */
  function GraphValuesFrom(schema: Schema, host: Dict): (values: Dict)
    requires Declared(schema) && host.Keys == schema.hostDefaults.Keys
    ensures values.Keys == schema.Shared() + {PROJECT}
  {
    map k | k in schema.Shared() + {PROJECT} ::
      if k == PROJECT then host[REQUESTED]
      else if k == TERMINAL && IsTruthy(host[CANCELLED]) then Text("user_cancelled")
      else Listed(host[k])
  }

  /** The loop over the graph's keys, then the two that are special. */
  method GraphValuesFromExecution(schema: Schema, graphKeys: seq<string>, host: Dict) returns (values: Dict)
    requires Declared(schema) && host.Keys == schema.hostDefaults.Keys && ToSet(graphKeys) == schema.graphKeys
    ensures values == GraphValuesFrom(schema, host)
  {
    values := map[];
    var i := 0;
    while i < |graphKeys|
      invariant 0 <= i <= |graphKeys|
      invariant values == map k | k in ToSet(graphKeys[..i]) * host.Keys :: Listed(host[k])
    {
      assert graphKeys[..i + 1] == graphKeys[..i] + [graphKeys[i]];
      if graphKeys[i] in host {
        values := values[graphKeys[i] := Listed(host[graphKeys[i]])];
      }
      i := i + 1;
    }
    assert graphKeys[..|graphKeys|] == graphKeys;
    values := values[PROJECT := host[REQUESTED]];
    if IsTruthy(host[CANCELLED]) {
      values := values[TERMINAL := Text("user_cancelled")];
    }
  }

  /** The values that differ from what the graph state held before the call. */
  function Updates(before: Dict, after: Dict): (updates: Dict)
    ensures forall k :: k in updates <==> k in after && Get(before, k) != after[k]
    ensures forall k :: k in updates ==> updates[k] == after[k]
  {
    map k | k in after && Get(before, k) != after[k] :: after[k]
  }

  /** Merging the updates gives exactly the Host's values on every key it writes, and touches no other key. */
  lemma MergeGivesPostState(schema: Schema, before: Dict, host: Dict)
    requires Declared(schema) && host.Keys == schema.hostDefaults.Keys
    ensures
      var after := GraphValuesFrom(schema, host);
      var merged := before + Updates(before, after);
      && (forall k :: k in after ==> Get(merged, k) == after[k])
      && (forall k :: k !in after ==> Get(merged, k) == Get(before, k))
  {
  }

  /** On the shared keys the Host's value arrives as it is, sets as sorted lists; a cancelled request ends as such. */
  lemma PostStateOnSharedKeys(schema: Schema, before: Dict, host: Dict, key: string)
    requires Declared(schema) && host.Keys == schema.hostDefaults.Keys
    requires key in schema.Shared()
    ensures
      var merged := before + Updates(before, GraphValuesFrom(schema, host));
      Get(merged, key) ==
        if key == TERMINAL && IsTruthy(host[CANCELLED]) then Text("user_cancelled")
        else Listed(host[key])
  {
    MergeGivesPostState(schema, before, host);
  }

  /** What a Host that changed nothing writes back under a shared key. */
  function WrittenBack(schema: Schema, graph: Dict, key: string): Value
    requires Declared(schema) && WellTyped(graph) && key in schema.Shared()
  {
    GraphValuesFrom(schema, ExecutionStateFrom(schema, graph))[key]
  }

  /** The key is held the way the adapter writes it. */
  ghost predicate Canonical(schema: Schema, graph: Dict, key: string)
    requires Declared(schema) && WellTyped(graph) && key in schema.Shared()
  {
    if key == READ_FILES || key == UPDATED_FILES then key in graph && Increasing(StringLess, graph[key].names)
    else if key == TERMINAL && IsTruthy(Get(graph, CANCELLED)) then Get(graph, key) == Text("user_cancelled")
    else key in graph || schema.hostDefaults[key] == Nothing
  }

  lemma SameListIffIncreasing(s: seq<string>)
    ensures StrictTotal(StringLess)
    ensures Sorted(StringLess, ToSet(s)) == s <==> Increasing(StringLess, s)
  {
    StringOrder();
    SortedIffIncreasing(StringLess, s);
  }

  lemma LoadedValue(schema: Schema, graph: Dict, key: string)
    requires Declared(schema) && WellTyped(graph) && key in schema.Shared()
    ensures
      var host := ExecutionStateFrom(schema, graph);
      && (key == READ_FILES || key == UPDATED_FILES ==> host[key] == NameSet(ToSet(ListAt(graph, key))))
      && (key != READ_FILES && key != UPDATED_FILES ==> host[key] == if key in graph then graph[key] else schema.hostDefaults[key])
  {
  }

  lemma WrittenBackUnchanged(schema: Schema, graph: Dict, key: string)
    requires Declared(schema) && WellTyped(graph) && key in schema.Shared()
    ensures Get(graph, key) == WrittenBack(schema, graph, key) <==> Canonical(schema, graph, key)
  {
    LoadedValue(schema, graph, key);
    assert CANCELLED in schema.Shared();
    LoadedValue(schema, graph, CANCELLED);
    if key == READ_FILES || key == UPDATED_FILES {
      SameListIffIncreasing(ListAt(graph, key));
    }
  }

  /** A call that leaves the Host's state alone yields no updates exactly when every shared key is canonical. */
  lemma NoUpdatesIffCanonical(schema: Schema, graph: Dict)
    requires Declared(schema) && WellTyped(graph)
    ensures Updates(graph, GraphValuesFrom(schema, ExecutionStateFrom(schema, graph))) == map[]
      <==> forall key :: key in schema.Shared() ==> Canonical(schema, graph, key)
  {
    var after := GraphValuesFrom(schema, ExecutionStateFrom(schema, graph));
    assert Get(graph, PROJECT) == after[PROJECT];
    forall key | key in schema.Shared() ensures (Get(graph, key) != after[key]) == !Canonical(schema, graph, key) {
      WrittenBackUnchanged(schema, graph, key);
    }
    if Updates(graph, after) == map[] {
      forall key | key in schema.Shared() ensures Canonical(schema, graph, key) {
        assert key !in Updates(graph, after);
      }
    }
  }

  /** The graph state after an idle call has been merged. */
  function RoundTrip(schema: Schema, graph: Dict): (merged: Dict)
    requires Declared(schema) && WellTyped(graph)
  {
    graph + Updates(graph, GraphValuesFrom(schema, ExecutionStateFrom(schema, graph)))
  }

  lemma RoundTripValue(schema: Schema, graph: Dict, key: string)
    requires Declared(schema) && WellTyped(graph) && key in schema.Shared()
    ensures Get(RoundTrip(schema, graph), key) == WrittenBack(schema, graph, key)
    ensures !WrittenBack(schema, graph, key).NameSet?
    ensures key in RoundTrip(schema, graph) || WrittenBack(schema, graph, key) == Nothing
  {
    LoadedValue(schema, graph, key);
  }

  lemma RepairListWritten(schema: Schema, graph: Dict, key: string)
    requires Declared(schema) && WellTyped(graph) && (key == READ_FILES || key == UPDATED_FILES)
    ensures key in schema.Shared()
    ensures WrittenBack(schema, graph, key).Names? && Increasing(StringLess, WrittenBack(schema, graph, key).names)
    ensures key in RoundTrip(schema, graph)
  {
    LoadedValue(schema, graph, key);
    SameListIffIncreasing(ListAt(graph, key));
    RoundTripValue(schema, graph, key);
  }

  lemma RoundTripTyped(schema: Schema, graph: Dict)
    requires Declared(schema) && WellTyped(graph)
    ensures WellTyped(RoundTrip(schema, graph))
  {
    var merged := RoundTrip(schema, graph);
    RepairListWritten(schema, graph, READ_FILES);
    RepairListWritten(schema, graph, UPDATED_FILES);
    RoundTripValue(schema, graph, READ_FILES);
    RoundTripValue(schema, graph, UPDATED_FILES);
    forall k | k in merged ensures !merged[k].NameSet? {
      if k in schema.Shared() {
        RoundTripValue(schema, graph, k);
      }
    }
  }

  lemma RoundTripCanonical(schema: Schema, graph: Dict, key: string)
    requires Declared(schema) && WellTyped(graph) && WellTyped(RoundTrip(schema, graph)) && key in schema.Shared()
    ensures Canonical(schema, RoundTrip(schema, graph), key)
  {
    RoundTripValue(schema, graph, key);
    LoadedValue(schema, graph, key);
    assert CANCELLED in schema.Shared();
    RoundTripValue(schema, graph, CANCELLED);
    LoadedValue(schema, graph, CANCELLED);
    if key == READ_FILES || key == UPDATED_FILES {
      RepairListWritten(schema, graph, key);
    }
  }

  /** Writing back once settles it: the merged state is canonical, so an idle second call yields no updates. */
  lemma SecondRoundTripIdle(schema: Schema, graph: Dict)
    requires Declared(schema) && WellTyped(graph)
    ensures WellTyped(RoundTrip(schema, graph))
    ensures RoundTrip(schema, RoundTrip(schema, graph)) == RoundTrip(schema, graph)
  {
    RoundTripTyped(schema, graph);
    RoundTripAllCanonical(schema, graph);
    CanonicalIdle(schema, RoundTrip(schema, graph));
  }

  lemma RoundTripAllCanonical(schema: Schema, graph: Dict)
    requires Declared(schema) && WellTyped(graph) && WellTyped(RoundTrip(schema, graph))
    ensures AllCanonical(schema, RoundTrip(schema, graph))
  {
    forall key | key in schema.Shared() ensures Canonical(schema, RoundTrip(schema, graph), key) {
      RoundTripCanonical(schema, graph, key);
    }
  }

  ghost predicate AllCanonical(schema: Schema, graph: Dict)
    requires Declared(schema) && WellTyped(graph)
  {
    forall key :: key in schema.Shared() ==> Canonical(schema, graph, key)
  }

  lemma CanonicalIdle(schema: Schema, graph: Dict)
    requires Declared(schema) && WellTyped(graph) && AllCanonical(schema, graph)
    ensures RoundTrip(schema, graph) == graph
  {
    NoUpdatesIffCanonical(schema, graph);
  }

  // ---------------------------------------------------------------- the declared classes

  const NONE_FIELDS: set<string> := {
    "requested_project_name", "created_project_name", "terminal_status", "failure_type", "failure_stage", "failure_message",
    "detected_test_framework", "expected_test_command", "actual_test_command", "environment_python",
    "installed_fastapi_version", "installed_starlette_version", "test_warning_count", "test_stdout", "test_stderr",
    "test_failure_summary", "failing_test_content", "related_source_content", "related_source_file", "repair_decision",
    "repair_before", "repair_after", "first_test_result_summary", "final_test_result_summary", "last_tool_executed"
  }

  const FALSE_FIELDS: set<string> := {
    "analysis_completed", "tasks_created", "workspace_inspected", "project_created", "project_exists", "tests_executed",
    "tests_passed", "test_infrastructure_failed", "retry_limit_reached", "user_cancelled", "environment_prepared",
    "dependencies_installed"
  }

  const LIST_FIELDS: set<string> := {"failing_test_files", "related_source_candidates", "sensitive_tools_executed"}
  const SET_FIELDS: set<string> := {"files_read_during_repair", "files_updated_during_repair", "rejected_tools"}
  const ZERO_FIELDS: set<string> := {"related_source_read_attempts", "repair_attempts"}

  /** Host fields the graph state does not declare. */
  const HOST_ONLY: set<string> := {"requested_project_name", "sensitive_tools_executed", "rejected_tools", "last_tool_executed"}

  const GIVEN_FIELDS: set<string> := {"original_user_message", "workflow_intent", "repair_phase"}

  function DefaultOf(message: string, key: string): Value {
    if key in SET_FIELDS then NameSet({})
    else if key in NONE_FIELDS then Nothing
    else if key in FALSE_FIELDS then Flag(false)
    else if key in LIST_FIELDS then Names([])
    else if key in ZERO_FIELDS then Number(0)
    else if key == "workflow_intent" then Text("create_project")
    else if key == "repair_phase" then Text("not_started")
    else Text(message)
  }

  /** The fields of ExecutionState with their defaults; the message has none and is always given. */
  function DeclaredDefaults(message: string): Dict {
    map k | k in SET_FIELDS + NONE_FIELDS + FALSE_FIELDS + LIST_FIELDS + ZERO_FIELDS + GIVEN_FIELDS :: DefaultOf(message, k)
  }

  lemma NoProjectField(message: string)
    ensures PROJECT !in DeclaredDefaults(message)
  {
    assert PROJECT !in NONE_FIELDS;
    assert PROJECT !in FALSE_FIELDS;
    assert PROJECT !in LIST_FIELDS + ZERO_FIELDS + SET_FIELDS + GIVEN_FIELDS;
  }

  lemma SpecialFields(message: string)
    ensures {READ_FILES, UPDATED_FILES, "rejected_tools"} <= DeclaredDefaults(message).Keys
    ensures {REQUESTED, CANCELLED, TERMINAL} <= DeclaredDefaults(message).Keys
    ensures DeclaredDefaults(message)[CANCELLED] == Flag(false)
    ensures DeclaredDefaults(message)[TERMINAL] == Nothing
    ensures DeclaredDefaults(message)["rejected_tools"] == NameSet({})
  {
    assert {READ_FILES, UPDATED_FILES, "rejected_tools"} == SET_FIELDS;
    assert REQUESTED in NONE_FIELDS && TERMINAL in NONE_FIELDS;
    assert TERMINAL !in SET_FIELDS;
    assert CANCELLED in FALSE_FIELDS && CANCELLED !in SET_FIELDS;
    assert CANCELLED !in NONE_FIELDS;
  }

  lemma SharedSetFields(message: string, graphKeys: set<string>, key: string)
    requires graphKeys !! HOST_ONLY && key in DeclaredDefaults(message) && key in graphKeys
    ensures DeclaredDefaults(message)[key].NameSet? ==> key == READ_FILES || key == UPDATED_FILES
  {
    assert "rejected_tools" in HOST_ONLY;
  }

  lemma NotHostOnly()
    ensures {READ_FILES, UPDATED_FILES, CANCELLED, TERMINAL, PROJECT} !! HOST_ONLY
    ensures REQUESTED in HOST_ONLY
  {
  }

  lemma FitsWhen(message: string, graphKeys: set<string>)
    requires graphKeys !! HOST_ONLY
    requires {READ_FILES, UPDATED_FILES, CANCELLED, TERMINAL, PROJECT} <= graphKeys
    ensures Declared(Schema(DeclaredDefaults(message), graphKeys))
  {
    NoProjectField(message);
    SpecialFields(message);
    NotHostOnly();
    forall k | k in DeclaredDefaults(message) && k in graphKeys
      ensures DeclaredDefaults(message)[k].NameSet? ==> k == READ_FILES || k == UPDATED_FILES
    {
      SharedSetFields(message, graphKeys, k);
    }
  }

  /** The real classes fit, the third set-valued Host field included: it is not a key of the graph state. */
  lemma RealDeclarations(message: string, otherGraphKeys: set<string>)
    requires otherGraphKeys !! HOST_ONLY
    ensures
      var defaults := DeclaredDefaults(message);
      var schema := Schema(defaults, (defaults.Keys - HOST_ONLY) + {PROJECT} + otherGraphKeys);
      "rejected_tools" in defaults && defaults["rejected_tools"].NameSet? && Declared(schema)
  {
    SpecialFields(message);
    NotHostOnly();
    FitsWhen(message, (DeclaredDefaults(message).Keys - HOST_ONLY) + {PROJECT} + otherGraphKeys);
  }
}
