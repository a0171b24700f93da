/**
 * The reference resolver exercised by the workflow-reference tests
 * (`simulate_yaml_processing`): it selects a workflow, merges its models into
 * the global ones, turns every category into a `CIVITAI_<CATEGORY>` variable
 * (resolving `ref:` entries against the global pool of that category), and
 * gathers the custom-node URLs (resolving workflow `ref:` nodes against the
 * global nodes' `id`s). Its result is a dict of environment variables.
 */
module WorkflowReferences {
  import opened Wrappers
  import opened Text
  import opened Yaml
  import opened Manifest
  import opened ModelMerge


  // ------------------------------------------------------------------
  // The selected workflow's nodes
  // ------------------------------------------------------------------

  /**
   * What the selection loop records for one workflow node: its `url` when
   * that is true, otherwise `"REF:" + ref` when its `ref` is true.
   */
  function NodeEntry(node: Value): (e: seq<string>)
    ensures |e| <= 1
  {
    if !node.Map? then []
    else if Truthy(Get(node, "url")) then [ToStr(Get(node, "url"))]
    else if Truthy(Get(node, "ref")) then [RefPrefix + ToStr(Get(node, "ref"))]
    else []
  }

  function NodeEntries(nodes: seq<Value>): seq<string> {
    if nodes == [] then []
    else NodeEntries(nodes[..|nodes| - 1]) + NodeEntry(nodes[|nodes| - 1])
  }

  // ------------------------------------------------------------------
  // Model categories
  // ------------------------------------------------------------------

  predicate HasIdEqual(item: Value, r: Value) {
    item.Map? && Equal(Get(item, "id"), r)
  }

  /** Position of the first pool entry whose `id` equals `r`, or `|pool|`: where the lookup breaks. */
  function FirstIdMatch(pool: seq<Value>, r: Value): (k: nat)
    ensures k <= |pool|
    ensures k < |pool| ==> HasIdEqual(pool[k], r)
    ensures forall j :: 0 <= j < k ==> !HasIdEqual(pool[j], r)
  {
    if pool == [] then 0
    else if HasIdEqual(pool[0], r) then 0
    else 1 + FirstIdMatch(pool[1..], r)
  }

  /**
   * The identifiers one category entry contributes: a `ref:` entry the
   * locator of the FIRST global entry with that `id` (nothing when that
   * entry has none, even if a later one does; nothing when no entry has
   * it); any other mapping its own locator; any other true value its text.
   */
  function ItemLocators(item: Value, pool: seq<Value>): (ids: seq<string>)
    ensures |ids| <= 1
    ensures forall k :: 0 <= k < |ids| ==> ids[k] != ""
  {
    if item.Map? && HasKey(item, "ref") then
      var k := FirstIdMatch(pool, Get(item, "ref"));
      if k < |pool| && Truthy(Locator(pool[k])) then
        ToStrTruthy(Locator(pool[k]));
        [ToStr(Locator(pool[k]))]
      else []
    else if item.Map? then
      if Truthy(Locator(item)) then ToStrTruthy(Locator(item)); [ToStr(Locator(item))] else []
    else if Truthy(item) then ToStrTruthy(item); [ToStr(item)]
    else []
  }

  function Locators(items: seq<Value>, pool: seq<Value>): seq<string> {
    if items == [] then []
    else Locators(items[..|items| - 1], pool) + ItemLocators(items[|items| - 1], pool)
  }

  /** The id list of one merged category. */
  function CategoryIds(e: (string, Value), pools: Dict<Value>): seq<string> {
    Locators(Iterate(e.1), PoolOf(pools, e.0))
  }

  /** The `CIVITAI_*` variables: one per category with a non-empty id list, the ids joined by commas. */
  function CategoryVars(all: Dict<Value>, pools: Dict<Value>): Dict<string> {
    if all == [] then []
    else
      var prev := CategoryVars(all[..|all| - 1], pools);
      var urns := CategoryIds(all[|all| - 1], pools);
      if urns == [] then prev else Put(prev, VarName(all[|all| - 1].0), Join(urns, ","))
  }

  // ------------------------------------------------------------------
  // Custom nodes
  // ------------------------------------------------------------------

  predicate HasNodeId(node: Value) {
    node.Map? && Truthy(Get(node, "id"))
  }

  /** The global nodes by `id` (as Python hashes it: `True` is `1`); a later node replaces an earlier one. */
  function NodeIndex(nodes: seq<Value>): map<Value, Value> {
    if nodes == [] then map[]
    else
      var prev := NodeIndex(nodes[..|nodes| - 1]);
      var node := nodes[|nodes| - 1];
      if HasNodeId(node) then prev[Canonical(Get(node, "id")) := node] else prev
  }

  /** One recorded workflow node after resolution: a `REF:` entry becomes the referenced node's true `url`, or nothing. */
  function ResolvedNode(entry: string, index: map<Value, Value>): (urls: seq<string>)
    ensures |urls| <= 1
  {
    if StartsWith(entry, RefPrefix) then
      var r := Str(entry[|RefPrefix|..]);
      if r in index && Truthy(Get(index[r], "url")) then [ToStr(Get(index[r], "url"))] else []
    else [entry]
  }

  function ResolvedNodes(entries: seq<string>, index: map<Value, Value>): seq<string> {
    if entries == [] then []
    else ResolvedNodes(entries[..|entries| - 1], index) + ResolvedNode(entries[|entries| - 1], index)
  }

  /** All custom-node URLs: the global ones, then the resolved workflow ones. */
  function AllNodeUrls(root: Value, selected: string): seq<string> {
    var globals := GlobalNodes(root);
    NodeUrls(globals) + ResolvedNodes(NodeEntries(WorkflowNodes(root, selected)), NodeIndex(globals))
  }

  // ------------------------------------------------------------------
  // The whole resolver
  // ------------------------------------------------------------------

  /** A category never makes the lookup loop iterate over something Python cannot iterate. */
  predicate CategoryOk(e: (string, Value), pools: Dict<Value>) {
    Iterable(e.1)
    && ((exists item :: item in Iterate(e.1) && item.Map? && HasKey(item, "ref")) ==>
          Iterable(Find(pools, e.0).GetOr(EmptyList)))
  }

  /**
   * The document is one the resolver runs on to the end: every `.get` is
   * called on a mapping, every `for` runs over something iterable, every `+`
   * of the merge is defined, every node `id` can be a dict key and every url
   * that is joined is a string.
   */
  predicate Processable(root: Value, selected: string) {
    root.Map?
    && GetOr(root, "models", EmptyMap).Map? && DistinctKeys(Models(root))
    && (selected != "" ==> Iterable(GetOr(root, "workflows", EmptyList)))
    && WorkflowOk(SelectedWorkflow(root, selected))
    && Merge(Models(root), WorkflowModels(root, selected)).Some?
    && (var all := Merge(Models(root), WorkflowModels(root, selected)).value;
        forall e :: e in all ==> CategoryOk(e, Pools(Models(root), |Models(root)|)))
    && Iterable(GetOr(root, "custom_nodes", EmptyList))
    && (forall node :: node in GlobalNodes(root) ==> UrlIsStr(node))
    && (forall node :: node in GlobalNodes(root) && HasNodeId(node) ==> Hashable(Get(node, "id")))
  }

  /** The environment the resolver returns. */
  function Process(root: Value, selected: string): Dict<string>
    requires Processable(root, selected)
  {
    var models := Models(root);
    var all := Merge(models, WorkflowModels(root, selected)).value;
    var env := CategoryVars(all, Pools(models, |models|));
    var urls := AllNodeUrls(root, selected);
    if urls == [] then env else Put(env, NodeUrlsVar, Join(urls, " "))
  }

  // ------------------------------------------------------------------
  // The loops
  // ------------------------------------------------------------------

  method CollectNodeEntries(nodes: seq<Value>) returns (entries: seq<string>)
    ensures entries == NodeEntries(nodes)
  {
    entries := [];
    for i := 0 to |nodes|
      invariant entries == NodeEntries(nodes[..i])
    {
      var node := nodes[i];
      assert nodes[..i + 1][..i] == nodes[..i];
      if node.Map? {
        if Truthy(Get(node, "url")) {
          entries := entries + [ToStr(Get(node, "url"))];
        } else if Truthy(Get(node, "ref")) {
          entries := entries + [RefPrefix + ToStr(Get(node, "ref"))];
        }
      }
    }
    assert nodes[..|nodes|] == nodes;
  }

  /** The selection loop: the chosen workflow's models and recorded nodes. */
  method SelectWorkflow(root: Value, selected: string) returns (workflowModels: Dict<Value>, workflowNodes: seq<string>)
    requires root.Map? && WorkflowOk(SelectedWorkflow(root, selected))
    ensures workflowModels == WorkflowModels(root, selected)
    ensures workflowNodes == NodeEntries(WorkflowNodes(root, selected))
  {
    workflowModels := [];
    workflowNodes := [];
    if selected != "" {
      var wf := FindWorkflow(Iterate(GetOr(root, "workflows", EmptyList)), selected);
      if wf.Some? {
        workflowModels := CopyMapping(Entries(GetOr(wf.value, "models", EmptyMap)));
        workflowNodes := CollectNodeEntries(Iterate(GetOr(wf.value, "custom_nodes", EmptyList)));
      }
    }
  }

  /** The inner lookup loop of a `ref:` entry. */
  method FindRef(pool: seq<Value>, r: Value) returns (k: nat)
    ensures k == FirstIdMatch(pool, r)
  {
    k := 0;
    while k < |pool|
      invariant k <= |pool|
      invariant forall j :: 0 <= j < k ==> !HasIdEqual(pool[j], r)
    {
      if pool[k].Map? && Equal(Get(pool[k], "id"), r) {
        return;
      }
      k := k + 1;
    }
  }

  /** The id list of one category. */
  method ResolveCategory(items: seq<Value>, pool: seq<Value>) returns (urns: seq<string>)
    ensures urns == Locators(items, pool)
  {
    urns := [];
    for i := 0 to |items|
      invariant urns == Locators(items[..i], pool)
    {
      var item := items[i];
      assert items[..i + 1][..i] == items[..i];
      if item.Map? {
        if HasKey(item, "ref") {
          var k := FindRef(pool, Get(item, "ref"));
          if k < |pool| {
            var actual := Locator(pool[k]);
            if Truthy(actual) {
              urns := urns + [ToStr(actual)];
            }
          }
        } else {
          var val := Locator(item);
          if Truthy(val) {
            urns := urns + [ToStr(val)];
          }
        }
      } else if Truthy(item) {
        urns := urns + [ToStr(item)];
      }
    }
    assert items[..|items|] == items;
  }

  /** The loop over the merged categories. */
  method ExportCategories(all: Dict<Value>, pools: Dict<Value>) returns (env: Dict<string>)
    ensures env == CategoryVars(all, pools)
  {
    env := [];
    for i := 0 to |all|
      invariant env == CategoryVars(all[..i], pools)
    {
      var (cat, lst) := all[i];
      assert all[..i + 1][..i] == all[..i];
      var urns := ResolveCategory(Iterate(lst), PoolOf(pools, cat));
      if urns != [] {
        env := Put(env, VarName(cat), Join(urns, ","));
      }
    }
    assert all[..|all|] == all;
  }

  method BuildNodeIndex(nodes: seq<Value>) returns (index: map<Value, Value>)
    ensures index == NodeIndex(nodes)
  {
    index := map[];
    for i := 0 to |nodes|
      invariant index == NodeIndex(nodes[..i])
    {
      var node := nodes[i];
      assert nodes[..i + 1][..i] == nodes[..i];
      if node.Map? && Truthy(Get(node, "id")) {
        index := index[Canonical(Get(node, "id")) := node];
      }
    }
    assert nodes[..|nodes|] == nodes;
  }

  method ResolveNodeRefs(entries: seq<string>, index: map<Value, Value>) returns (resolved: seq<string>)
    ensures resolved == ResolvedNodes(entries, index)
  {
    resolved := [];
    for i := 0 to |entries|
      invariant resolved == ResolvedNodes(entries[..i], index)
    {
      var entry := entries[i];
      assert entries[..i + 1][..i] == entries[..i];
      if StartsWith(entry, RefPrefix) {
        var r := Str(entry[|RefPrefix|..]);
        if r in index {
          var actual := Get(index[r], "url");
          if Truthy(actual) {
            resolved := resolved + [ToStr(actual)];
          }
        }
      } else {
        resolved := resolved + [entry];
      }
    }
    assert entries[..|entries|] == entries;
  }

  /** `simulate_yaml_processing` on a loaded document and a workflow name (`""` for none). */
  method Simulate(root: Value, selected: string) returns (env: Dict<string>)
    requires Processable(root, selected)
    ensures env == Process(root, selected)
  {
    var models := Entries(GetOr(root, "models", EmptyMap));
    var workflowModels, workflowNodes := SelectWorkflow(root, selected);
    var allModels := MergeModels(models, workflowModels);
    var pools := CollectPools(models);
    env := ExportCategories(allModels, pools);

    var globals := Iterate(GetOr(root, "custom_nodes", EmptyList));
    var globalUrls := CollectNodeUrls(globals);
    var index := BuildNodeIndex(globals);
    var resolved := ResolveNodeRefs(workflowNodes, index);
    var allUrls := globalUrls + resolved;
    if allUrls != [] {
      env := Put(env, NodeUrlsVar, Join(allUrls, " "));
    }
  }
}
