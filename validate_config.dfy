/**
 * The manifest validator (scripts/validate_config.py). The script walks the
 * parsed document once, appending a message to `errors` for every structural
 * problem it sees (sections 1-5 below), then builds the sets of global model
 * ids per category and of global custom-node ids and reports every workflow
 * `ref` that none of them contains (section 6). It exits 0 when `errors` is
 * empty and 1 otherwise.
 *
 * Each section is specified by a function defined over a prefix of the list
 * it walks (`n` = how many elements are done), and computed by a method with
 * the script's own loop, proved equal to that function.
 */
module ValidateConfig {
  import opened Text
  import opened Yaml
  import opened Manifest

  const TopLevelKeys: set<string> := {"install", "models", "custom_nodes", "workflows"}
  const InstallKeys: set<string> := {"comfy_dir", "cpu_only"}

  /** `[n]`, the index part of a message. */
  function Index(n: nat): string {
    "[" + NatToString(n) + "]"
  }

  function WorkflowPath(i: nat): string {
    "workflows" + Index(i)
  }

  // ------------------------------------------------------------------
  // 1. Top-level keys
  // ------------------------------------------------------------------

  function UnknownKeyMessage(k: string): string {
    "Unknown top-level key: " + k
  }

  function TopLevelErrors(keys: seq<string>, n: nat): seq<string>
    requires n <= |keys|
  {
    if n == 0 then []
    else TopLevelErrors(keys, n - 1)
         + (if keys[n - 1] in TopLevelKeys then [] else [UnknownKeyMessage(keys[n - 1])])
  }

  // ------------------------------------------------------------------
  // 2. install
  // ------------------------------------------------------------------

  function InstallKeyMessage(k: string): string {
    "install: unknown key " + k
  }

  const CpuOnlyMessage: string := "install.cpu_only must be boolean"

  function InstallKeyErrors(keys: seq<string>, n: nat): seq<string>
    requires n <= |keys|
  {
    if n == 0 then []
    else InstallKeyErrors(keys, n - 1)
         + (if keys[n - 1] in InstallKeys then [] else [InstallKeyMessage(keys[n - 1])])
  }

  /** `install` here is `data.get("install", {}) or {}`. */
  function InstallErrors(install: Value): seq<string> {
    if !install.Map? then ["install section must be a mapping"]
    else InstallKeyErrors(Keys(install), |install.entries|)
         + (if HasKey(install, "cpu_only") && !Get(install, "cpu_only").Bool? then [CpuOnlyMessage] else [])
  }

  // ------------------------------------------------------------------
  // 3. Model entry lists, global (`models.<cat>`) and per workflow
  //    (`workflows[i].models.<cat>`)
  // ------------------------------------------------------------------

  /** The item carries one of the direct content fields. */
  predicate HasContent(item: Value) {
    HasKey(item, "urn") || HasKey(item, "url") || HasKey(item, "id")
  }

  function MissingContentMessage(path: string, j: nat): string {
    path + Index(j) + " must have 'urn', 'url', 'id', or 'ref' field"
  }

  function ConflictMessage(path: string, j: nat): string {
    path + Index(j) + " cannot have both 'ref' and direct content fields"
  }

  function ItemTypeMessage(path: string, j: nat): string {
    path + Index(j) + " must be str or mapping"
  }

  /** The messages for item `j` of the list at `path`. */
  function ItemErrors(path: string, j: nat, item: Value): seq<string> {
    if item.Str? then []
    else if item.Map? then
      (if HasContent(item) || HasKey(item, "ref") then [] else [MissingContentMessage(path, j)])
      + (if HasKey(item, "ref") && HasContent(item) then [ConflictMessage(path, j)] else [])
    else [ItemTypeMessage(path, j)]
  }

  function ItemListErrors(path: string, items: seq<Value>, n: nat): seq<string>
    requires n <= |items|
  {
    if n == 0 then [] else ItemListErrors(path, items, n - 1) + ItemErrors(path, n - 1, items[n - 1])
  }

  /** The messages for category `k` (value `v`) under `prefix` ("models." or "workflows[i].models."). */
  function CategoryErrors(prefix: string, k: string, v: Value): seq<string> {
    if !v.List? then [prefix + k + " must be a list"]
    else ItemListErrors(prefix + k, v.items, |v.items|)
  }

  /**
   * The messages for the categories of one `models` mapping. The global
   * section skips `dest_dir` and `source_dir` (`skipPaths`); a workflow's
   * section checks every key.
   */
  function SectionErrors(prefix: string, es: seq<(string, Value)>, skipPaths: bool, n: nat): seq<string>
    requires n <= |es|
  {
    if n == 0 then []
    else SectionErrors(prefix, es, skipPaths, n - 1)
         + (if skipPaths && es[n - 1].0 in PathKeys then [] else CategoryErrors(prefix, es[n - 1].0, es[n - 1].1))
  }

  /** `models` here is `data.get("models", {}) or {}`. */
  function ModelsErrors(models: Value): seq<string> {
    if !models.Map? then ["models section must be a mapping"]
    else SectionErrors("models.", models.entries, true, |models.entries|)
  }

  // ------------------------------------------------------------------
  // 4. Global custom nodes
  // ------------------------------------------------------------------

  function NodeErrors(j: nat, node: Value): seq<string> {
    if !node.Map? then ["custom_nodes" + Index(j) + " must be mapping with 'url' or 'id'"]
    else if !HasKey(node, "url") && !HasKey(node, "id") then ["custom_nodes" + Index(j) + " missing 'url' or 'id' field"]
    else []
  }

  function NodeListErrors(nodes: seq<Value>, n: nat): seq<string>
    requires n <= |nodes|
  {
    if n == 0 then [] else NodeListErrors(nodes, n - 1) + NodeErrors(n - 1, nodes[n - 1])
  }

  /** `nodes` here is `data.get("custom_nodes", [])`. */
  function CustomNodesErrors(nodes: Value): seq<string> {
    if Truthy(nodes) && !nodes.List? then ["custom_nodes must be a list"]
    else NodeListErrors(Iterate(nodes), |Iterate(nodes)|)
  }

  // ------------------------------------------------------------------
  // 5. Workflows
  // ------------------------------------------------------------------

  function WorkflowNodeMissingMessage(i: nat, j: nat): string {
    WorkflowPath(i) + ".custom_nodes" + Index(j) + " missing 'url' or 'ref' field"
  }

  function WorkflowNodeConflictMessage(i: nat, j: nat): string {
    WorkflowPath(i) + ".custom_nodes" + Index(j) + " cannot have both 'ref' and 'url' fields"
  }

  function WorkflowNodeErrors(i: nat, j: nat, node: Value): seq<string> {
    if !node.Map? then [WorkflowPath(i) + ".custom_nodes" + Index(j) + " must be mapping with 'url' or 'ref'"]
    else (if HasKey(node, "url") || HasKey(node, "ref") then [] else [WorkflowNodeMissingMessage(i, j)])
         + (if HasKey(node, "ref") && HasKey(node, "url") then [WorkflowNodeConflictMessage(i, j)] else [])
  }

  function WorkflowNodeListErrors(i: nat, nodes: seq<Value>, n: nat): seq<string>
    requires n <= |nodes|
  {
    if n == 0 then [] else WorkflowNodeListErrors(i, nodes, n - 1) + WorkflowNodeErrors(i, n - 1, nodes[n - 1])
  }

  function WorkflowModelsErrors(i: nat, models: Value): seq<string> {
    if Truthy(models) && !models.Map? then [WorkflowPath(i) + ".models must be a mapping"]
    else if models.Map? then SectionErrors(WorkflowPath(i) + ".models.", models.entries, false, |models.entries|)
    else []
  }

  function WorkflowNodesErrors(i: nat, nodes: Value): seq<string> {
    if Truthy(nodes) && !nodes.List? then [WorkflowPath(i) + ".custom_nodes must be a list"]
    else WorkflowNodeListErrors(i, Iterate(nodes), |Iterate(nodes)|)
  }

  function WorkflowErrors(i: nat, wf: Value): seq<string> {
    if !wf.Map? then [WorkflowPath(i) + " must be mapping"]
    else (if HasKey(wf, "name") then [] else [WorkflowPath(i) + " missing 'name' field"])
         + WorkflowModelsErrors(i, GetOr(wf, "models", EmptyMap))
         + WorkflowNodesErrors(i, GetOr(wf, "custom_nodes", EmptyList))
  }

  function WorkflowListErrors(wfs: seq<Value>, n: nat): seq<string>
    requires n <= |wfs|
  {
    if n == 0 then [] else WorkflowListErrors(wfs, n - 1) + WorkflowErrors(n - 1, wfs[n - 1])
  }

  /** `wfs` here is `data.get("workflows", [])`. */
  function WorkflowsErrors(wfs: Value): seq<string> {
    if Truthy(wfs) && !wfs.List? then ["workflows must be a list"]
    else WorkflowListErrors(Iterate(wfs), |Iterate(wfs)|)
  }

  // ------------------------------------------------------------------
  // 6. Cross references
  // ------------------------------------------------------------------

  /** The ids (as Python hashes them) of the mapping items that carry an `id` key. */
  function IdsOf(items: seq<Value>, n: nat): set<Value>
    requires n <= |items|
  {
    if n == 0 then {}
    else IdsOf(items, n - 1)
         + (if items[n - 1].Map? && HasKey(items[n - 1], "id") then {Canonical(Get(items[n - 1], "id"))} else {})
  }

  /** `available_ids`: category -> ids of its global entries, for every category but the path keys. */
  function AvailableIds(es: seq<(string, Value)>, n: nat): map<string, set<Value>>
    requires n <= |es|
  {
    if n == 0 then map[]
    else if es[n - 1].0 in PathKeys then AvailableIds(es, n - 1)
    else AvailableIds(es, n - 1)[es[n - 1].0 := IdsOf(Iterate(es[n - 1].1), |Iterate(es[n - 1].1)|)]
  }

  predicate RefFound(cat: string, r: Value, ids: map<string, set<Value>>) {
    cat in ids && Canonical(r) in ids[cat]
  }

  function ModelRefMessage(i: nat, cat: string, j: nat, r: Value): string {
    (WorkflowPath(i) + ".models." + cat) + Index(j) + (" ref '" + ToStr(r) + "' not found in models." + cat)
  }

  function NodeRefMessage(i: nat, j: nat, r: Value): string {
    (WorkflowPath(i) + ".custom_nodes") + Index(j) + (" ref '" + ToStr(r) + "' not found in global custom_nodes")
  }

  function ModelRefErrors(i: nat, cat: string, j: nat, item: Value, ids: map<string, set<Value>>): seq<string> {
    if item.Map? && HasKey(item, "ref") && !RefFound(cat, Get(item, "ref"), ids)
    then [ModelRefMessage(i, cat, j, Get(item, "ref"))]
    else []
  }

  function CategoryRefErrors(i: nat, cat: string, items: seq<Value>, ids: map<string, set<Value>>, n: nat): seq<string>
    requires n <= |items|
  {
    if n == 0 then [] else CategoryRefErrors(i, cat, items, ids, n - 1) + ModelRefErrors(i, cat, n - 1, items[n - 1], ids)
  }

  function SectionRefErrors(i: nat, es: seq<(string, Value)>, ids: map<string, set<Value>>, n: nat): seq<string>
    requires n <= |es|
  {
    if n == 0 then []
    else SectionRefErrors(i, es, ids, n - 1)
         + CategoryRefErrors(i, es[n - 1].0, Iterate(es[n - 1].1), ids, |Iterate(es[n - 1].1)|)
  }

  function NodeRefErrors(i: nat, j: nat, node: Value, nodeIds: set<Value>): seq<string> {
    if node.Map? && HasKey(node, "ref") && Canonical(Get(node, "ref")) !in nodeIds
    then [NodeRefMessage(i, j, Get(node, "ref"))]
    else []
  }

  function NodeListRefErrors(i: nat, nodes: seq<Value>, nodeIds: set<Value>, n: nat): seq<string>
    requires n <= |nodes|
  {
    if n == 0 then [] else NodeListRefErrors(i, nodes, nodeIds, n - 1) + NodeRefErrors(i, n - 1, nodes[n - 1], nodeIds)
  }

  function WorkflowRefErrors(i: nat, wf: Value, ids: map<string, set<Value>>, nodeIds: set<Value>): seq<string> {
    if !wf.Map? then []
    else
      var models := Or(GetOr(wf, "models", EmptyMap), EmptyMap);
      var nodes := Iterate(GetOr(wf, "custom_nodes", EmptyList));
      (if models.Map? then SectionRefErrors(i, models.entries, ids, |models.entries|) else [])
      + NodeListRefErrors(i, nodes, nodeIds, |nodes|)
  }

  function WorkflowListRefErrors(wfs: seq<Value>, ids: map<string, set<Value>>, nodeIds: set<Value>, n: nat): seq<string>
    requires n <= |wfs|
  {
    if n == 0 then [] else WorkflowListRefErrors(wfs, ids, nodeIds, n - 1) + WorkflowRefErrors(n - 1, wfs[n - 1], ids, nodeIds)
  }

  function GlobalModels(root: Value): Value {
    Or(GetOr(root, "models", EmptyMap), EmptyMap)
  }

  function ModelIdIndex(root: Value): map<string, set<Value>> {
    var models := GlobalModels(root);
    if models.Map? then AvailableIds(models.entries, |models.entries|) else map[]
  }

  function NodeIdIndex(root: Value): set<Value> {
    var nodes := Iterate(GetOr(root, "custom_nodes", EmptyList));
    IdsOf(nodes, |nodes|)
  }

  function CrossRefErrors(root: Value): seq<string> {
    var wfs := Iterate(GetOr(root, "workflows", EmptyList));
    WorkflowListRefErrors(wfs, ModelIdIndex(root), NodeIdIndex(root), |wfs|)
  }

  // ------------------------------------------------------------------
  // The whole report
  // ------------------------------------------------------------------

  function Root(data: Value): Value {
    Or(data, EmptyMap)
  }

  /** Every message the script prints, in the order it appends them. */
  function Violations(data: Value): seq<string> {
    var root := Root(data);
    TopLevelErrors(Keys(root), |Keys(root)|)
    + InstallErrors(Or(GetOr(root, "install", EmptyMap), EmptyMap))
    + ModelsErrors(GlobalModels(root))
    + CustomNodesErrors(GetOr(root, "custom_nodes", EmptyList))
    + WorkflowsErrors(GetOr(root, "workflows", EmptyList))
    + CrossRefErrors(root)
  }

  // ------------------------------------------------------------------
  // The inputs on which the script runs to its end
  // ------------------------------------------------------------------

  /** `for item in lst or []` with `item["id"]` put into a set does not raise. */
  predicate IdListOk(lst: Value) {
    IterableOrFalsy(lst)
    && forall x :: x in Iterate(lst) && x.Map? && HasKey(x, "id") ==> Hashable(Get(x, "id"))
  }

  /** `for item in lst or []` with `item["ref"]` looked up in a set does not raise. */
  predicate RefListOk(lst: Value, lookedUp: bool) {
    IterableOrFalsy(lst)
    && (lookedUp ==> forall x :: x in Iterate(lst) && x.Map? && HasKey(x, "ref") ==> Hashable(Get(x, "ref")))
  }

  /** The global categories, the keys of `available_ids`. */
  predicate GlobalCategory(models: Value, cat: string) {
    cat !in PathKeys && cat in Keys(models)
  }

  /**
   * A workflow survives both passes: its `models` is missing or a mapping
   * (`.items()` is called on it, lines 105 and 180), its lists can be
   * iterated, and its refs can be looked up.
   */
  predicate WorkflowOk(wf: Value, models: Value) {
    wf.Map? ==>
      var wfModels := GetOr(wf, "models", EmptyMap);
      && wfModels.Map?
      && (forall k :: 0 <= k < |wfModels.entries| ==>
            RefListOk(wfModels.entries[k].1, GlobalCategory(models, wfModels.entries[k].0)))
      && RefListOk(GetOr(wf, "custom_nodes", EmptyList), true)
  }

  /**
   * The documents on which the script does not raise: the root is a mapping
   * (or empty), `models` is a mapping (or empty), every list it iterates can
   * be iterated, and every `id`/`ref` it puts into or looks up in a set is
   * hashable.
   */
  predicate Validatable(data: Value) {
    var root := Root(data);
    var models := GlobalModels(root);
    && root.Map?
    && models.Map?
    && (forall k :: 0 <= k < |models.entries| && models.entries[k].0 !in PathKeys ==> IdListOk(models.entries[k].1))
    && IdListOk(GetOr(root, "custom_nodes", EmptyList))
    && IterableOrFalsy(GetOr(root, "workflows", EmptyList))
    && (forall wf :: wf in Iterate(GetOr(root, "workflows", EmptyList)) ==> WorkflowOk(wf, models))
  }

  // ------------------------------------------------------------------
  // Exit status and output (lines 13-30, 199-205)
  // ------------------------------------------------------------------

  /**
   * How far the script got before validating:
   * - `NoYamlModule`: PyYAML cannot be imported (lines 13-19);
   * - `NoConfigFile`: no path argument, or the path is not a regular file (lines 21-24);
   * - `ReadFailed`: the file exists but `read_text()` raises (no permission, not
   *   valid text); that exception is not caught, so Python exits with status 1;
   * - `ParseError`: `yaml.safe_load` raises a `YAMLError` (lines 28-30);
   * - `Parsed`: the loaded document.
   */
  datatype Loaded = NoYamlModule | NoConfigFile | ReadFailed | ParseError | Parsed(doc: Value)

  const PassedLine: string := "[\U{2713}] config.yml passed validation"
  const FailedLine: string := "[!] Configuration validation failed:"

  /** The process exit status. */
  function ExitCode(loaded: Loaded): (code: int)
    requires loaded.Parsed? ==> Validatable(loaded.doc)
    ensures code == 0 <==> loaded.Parsed? && Violations(loaded.doc) == []
    ensures code == 2 <==> loaded.NoYamlModule? || loaded.NoConfigFile?
    ensures code == 1 <==> loaded.ReadFailed? || loaded.ParseError? || (loaded.Parsed? && Violations(loaded.doc) != [])
  {
    match loaded
    case NoYamlModule => 2
    case NoConfigFile => 2
    case ReadFailed => 1
    case ParseError => 1
    case Parsed(doc) => if Violations(doc) == [] then 0 else 1
  }

  /** The lines printed to standard output for a list of messages. */
  function Report(errors: seq<string>): (lines: seq<string>)
    ensures errors == [] ==> lines == [PassedLine]
    ensures errors != [] ==> |lines| == |errors| + 1 && lines[0] == FailedLine
    ensures errors != [] ==> forall k :: 0 <= k < |errors| ==> lines[k + 1] == "  - " + errors[k]
  {
    if errors == [] then [PassedLine]
    else [FailedLine] + seq(|errors|, k requires 0 <= k < |errors| => "  - " + errors[k])
  }

  // ------------------------------------------------------------------
  // The script's loops
  // ------------------------------------------------------------------

  method CheckTopLevel(root: Value) returns (errors: seq<string>)
    requires root.Map?
    ensures errors == TopLevelErrors(Keys(root), |Keys(root)|)
  {
    errors := [];
    for i := 0 to |root.entries|
      invariant errors == TopLevelErrors(Keys(root), i)
    {
      var key := root.entries[i].0;
      if key !in TopLevelKeys {
        errors := errors + [UnknownKeyMessage(key)];
      }
    }
  }

  method CheckInstall(install: Value) returns (errors: seq<string>)
    ensures errors == InstallErrors(install)
  {
    if !install.Map? {
      return ["install section must be a mapping"];
    }
    errors := [];
    for i := 0 to |install.entries|
      invariant errors == InstallKeyErrors(Keys(install), i)
    {
      var k := install.entries[i].0;
      if k !in InstallKeys {
        errors := errors + [InstallKeyMessage(k)];
      }
    }
    if HasKey(install, "cpu_only") && !Get(install, "cpu_only").Bool? {
      errors := errors + [CpuOnlyMessage];
    }
  }

  method CheckItems(path: string, items: seq<Value>) returns (errors: seq<string>)
    ensures errors == ItemListErrors(path, items, |items|)
  {
    errors := [];
    for idx := 0 to |items|
      invariant errors == ItemListErrors(path, items, idx)
    {
      var item := items[idx];
      if item.Str? {
        continue;
      }
      if item.Map? {
        var hasContent := HasKey(item, "urn") || HasKey(item, "url") || HasKey(item, "id") || HasKey(item, "ref");
        if !hasContent {
          errors := errors + [MissingContentMessage(path, idx)];
        }
        if HasKey(item, "ref") && (HasKey(item, "urn") || HasKey(item, "url") || HasKey(item, "id")) {
          errors := errors + [ConflictMessage(path, idx)];
        }
      } else {
        errors := errors + [ItemTypeMessage(path, idx)];
      }
    }
  }

  method CheckSection(prefix: string, es: seq<(string, Value)>, skipPaths: bool) returns (errors: seq<string>)
    ensures errors == SectionErrors(prefix, es, skipPaths, |es|)
  {
    errors := [];
    for i := 0 to |es|
      invariant errors == SectionErrors(prefix, es, skipPaths, i)
    {
      var (k, v) := es[i];
      if skipPaths && k in PathKeys {
        continue;
      }
      if !v.List? {
        errors := errors + [prefix + k + " must be a list"];
        continue;
      }
      var itemErrors := CheckItems(prefix + k, v.items);
      errors := errors + itemErrors;
    }
  }

  method CheckModels(models: Value) returns (errors: seq<string>)
    ensures errors == ModelsErrors(models)
  {
    if !models.Map? {
      return ["models section must be a mapping"];
    }
    errors := CheckSection("models.", models.entries, true);
  }

  method CheckCustomNodes(nodes: Value) returns (errors: seq<string>)
    ensures errors == CustomNodesErrors(nodes)
  {
    if Truthy(nodes) && !nodes.List? {
      return ["custom_nodes must be a list"];
    }
    var list := Iterate(nodes);
    errors := [];
    for idx := 0 to |list|
      invariant errors == NodeListErrors(list, idx)
    {
      var node := list[idx];
      if !node.Map? {
        errors := errors + ["custom_nodes" + Index(idx) + " must be mapping with 'url' or 'id'"];
        continue;
      }
      if !HasKey(node, "url") && !HasKey(node, "id") {
        errors := errors + ["custom_nodes" + Index(idx) + " missing 'url' or 'id' field"];
      }
    }
  }

  method CheckWorkflowNodes(i: nat, nodes: Value) returns (errors: seq<string>)
    ensures errors == WorkflowNodesErrors(i, nodes)
  {
    if Truthy(nodes) && !nodes.List? {
      return [WorkflowPath(i) + ".custom_nodes must be a list"];
    }
    var list := Iterate(nodes);
    errors := [];
    for nodeIdx := 0 to |list|
      invariant errors == WorkflowNodeListErrors(i, list, nodeIdx)
    {
      var node := list[nodeIdx];
      if !node.Map? {
        errors := errors + [WorkflowPath(i) + ".custom_nodes" + Index(nodeIdx) + " must be mapping with 'url' or 'ref'"];
        continue;
      }
      if !HasKey(node, "url") && !HasKey(node, "ref") {
        errors := errors + [WorkflowNodeMissingMessage(i, nodeIdx)];
      }
      if HasKey(node, "ref") && HasKey(node, "url") {
        errors := errors + [WorkflowNodeConflictMessage(i, nodeIdx)];
      }
    }
  }

  /** The `models` part of one workflow entry. */
  method CheckWorkflowModels(idx: nat, wfModels: Value) returns (errors: seq<string>)
    ensures errors == WorkflowModelsErrors(idx, wfModels)
  {
    errors := [];
    if Truthy(wfModels) && !wfModels.Map? {
      errors := errors + [WorkflowPath(idx) + ".models must be a mapping"];
    } else if wfModels.Map? {
      var modelErrors := CheckSection(WorkflowPath(idx) + ".models.", wfModels.entries, false);
      errors := errors + modelErrors;
    }
  }

  method CheckWorkflow(idx: nat, wf: Value) returns (errors: seq<string>)
    ensures errors == WorkflowErrors(idx, wf)
  {
    if !wf.Map? {
      return [WorkflowPath(idx) + " must be mapping"];
    }
    errors := [];
    if !HasKey(wf, "name") {
      errors := errors + [WorkflowPath(idx) + " missing 'name' field"];
    }
    var modelErrors := CheckWorkflowModels(idx, GetOr(wf, "models", EmptyMap));
    errors := errors + modelErrors;
    var nodeErrors := CheckWorkflowNodes(idx, GetOr(wf, "custom_nodes", EmptyList));
    errors := errors + nodeErrors;
  }

  method CheckWorkflows(wfs: Value) returns (errors: seq<string>)
    ensures errors == WorkflowsErrors(wfs)
  {
    if Truthy(wfs) && !wfs.List? {
      return ["workflows must be a list"];
    }
    var list := Iterate(wfs);
    errors := [];
    for idx := 0 to |list|
      invariant errors == WorkflowListErrors(list, idx)
    {
      var wfErrors := CheckWorkflow(idx, list[idx]);
      errors := errors + wfErrors;
    }
  }

  method CollectIds(items: seq<Value>) returns (ids: set<Value>)
    ensures ids == IdsOf(items, |items|)
  {
    ids := {};
    for k := 0 to |items|
      invariant ids == IdsOf(items, k)
    {
      var item := items[k];
      if item.Map? && HasKey(item, "id") {
        ids := ids + {Canonical(Get(item, "id"))};
      }
    }
  }

  method CollectModelIds(es: seq<(string, Value)>) returns (available: map<string, set<Value>>)
    ensures available == AvailableIds(es, |es|)
  {
    available := map[];
    for k := 0 to |es|
      invariant available == AvailableIds(es, k)
    {
      var (cat, lst) := es[k];
      if cat in PathKeys {
        continue;
      }
      var ids := CollectIds(Iterate(lst));
      available := available[cat := ids];
    }
  }

  method CheckCategoryRefs(wfIdx: nat, cat: string, items: seq<Value>, ids: map<string, set<Value>>)
    returns (errors: seq<string>)
    ensures errors == CategoryRefErrors(wfIdx, cat, items, ids, |items|)
  {
    errors := [];
    for itemIdx := 0 to |items|
      invariant errors == CategoryRefErrors(wfIdx, cat, items, ids, itemIdx)
    {
      var item := items[itemIdx];
      if item.Map? && HasKey(item, "ref") {
        var refId := Get(item, "ref");
        if cat !in ids || Canonical(refId) !in ids[cat] {
          errors := errors + [ModelRefMessage(wfIdx, cat, itemIdx, refId)];
        }
      }
    }
  }

  method CheckSectionRefs(wfIdx: nat, es: seq<(string, Value)>, ids: map<string, set<Value>>)
    returns (errors: seq<string>)
    ensures errors == SectionRefErrors(wfIdx, es, ids, |es|)
  {
    errors := [];
    for c := 0 to |es|
      invariant errors == SectionRefErrors(wfIdx, es, ids, c)
    {
      var (cat, lst) := es[c];
      var catErrors := CheckCategoryRefs(wfIdx, cat, Iterate(lst), ids);
      errors := errors + catErrors;
    }
  }

  method CheckNodeRefs(wfIdx: nat, nodes: seq<Value>, nodeIds: set<Value>) returns (errors: seq<string>)
    ensures errors == NodeListRefErrors(wfIdx, nodes, nodeIds, |nodes|)
  {
    errors := [];
    for nodeIdx := 0 to |nodes|
      invariant errors == NodeListRefErrors(wfIdx, nodes, nodeIds, nodeIdx)
    {
      var node := nodes[nodeIdx];
      if node.Map? && HasKey(node, "ref") {
        var refId := Get(node, "ref");
        if Canonical(refId) !in nodeIds {
          errors := errors + [NodeRefMessage(wfIdx, nodeIdx, refId)];
        }
      }
    }
  }

  method CheckWorkflowRefs(wfIdx: nat, wf: Value, ids: map<string, set<Value>>, nodeIds: set<Value>)
    returns (errors: seq<string>)
    ensures errors == WorkflowRefErrors(wfIdx, wf, ids, nodeIds)
  {
    errors := [];
    if !wf.Map? {
      return;
    }
    var wfModels := Or(GetOr(wf, "models", EmptyMap), EmptyMap);
    if wfModels.Map? {
      errors := CheckSectionRefs(wfIdx, wfModels.entries, ids);
    }
    var nodeErrors := CheckNodeRefs(wfIdx, Iterate(GetOr(wf, "custom_nodes", EmptyList)), nodeIds);
    errors := errors + nodeErrors;
  }

  method CheckCrossReferences(root: Value) returns (errors: seq<string>)
    ensures errors == CrossRefErrors(root)
  {
    var models := GlobalModels(root);
    var available: map<string, set<Value>> := map[];
    if models.Map? {
      available := CollectModelIds(models.entries);
    }
    var nodeIds := CollectIds(Iterate(GetOr(root, "custom_nodes", EmptyList)));
    var wfs := Iterate(GetOr(root, "workflows", EmptyList));
    errors := [];
    for wfIdx := 0 to |wfs|
      invariant errors == WorkflowListRefErrors(wfs, available, nodeIds, wfIdx)
    {
      var wfErrors := CheckWorkflowRefs(wfIdx, wfs[wfIdx], available, nodeIds);
      errors := errors + wfErrors;
    }
  }

  /** The script from line 32 to line 197: the full list of messages. */
  method Validate(data: Value) returns (errors: seq<string>)
    requires Validatable(data)
    ensures errors == Violations(data)
  {
    var root := Or(data, EmptyMap);
    errors := CheckTopLevel(root);
    var installErrors := CheckInstall(Or(GetOr(root, "install", EmptyMap), EmptyMap));
    errors := errors + installErrors;
    var modelErrors := CheckModels(GlobalModels(root));
    errors := errors + modelErrors;
    var nodeErrors := CheckCustomNodes(GetOr(root, "custom_nodes", EmptyList));
    errors := errors + nodeErrors;
    var workflowErrors := CheckWorkflows(GetOr(root, "workflows", EmptyList));
    errors := errors + workflowErrors;
    var refErrors := CheckCrossReferences(root);
    errors := errors + refErrors;
  }

  /** The whole script on what was read: exit status and printed lines. */
  method Run(loaded: Loaded) returns (code: int, lines: seq<string>)
    requires loaded.Parsed? ==> Validatable(loaded.doc)
    ensures code == ExitCode(loaded)
    ensures loaded.Parsed? ==> lines == Report(Violations(loaded.doc))
    ensures !loaded.Parsed? ==> lines == []
  {
    match loaded
    case NoYamlModule =>
      code, lines := 2, [];
    case NoConfigFile =>
      code, lines := 2, [];
    case ReadFailed =>
      code, lines := 1, [];
    case ParseError =>
      code, lines := 1, [];
    case Parsed(doc) =>
      var errors := Validate(doc);
      code := if errors == [] then 0 else 1;
      lines := Report(errors);
  }
}
