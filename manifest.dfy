/** The vocabulary of config.yml that the validator and both resolvers share. */
module Manifest {
  import opened Wrappers
  import opened Text
  import opened Yaml

  /** The two keys of `models` that hold directories, not entry lists. */
  const PathKeys: set<string> := {"dest_dir", "source_dir"}

  /** The marker a resolver puts in front of a reference while it collects identifiers. */
  const RefPrefix: string := "REF:"

  /** The variable that carries the custom-node URLs. */
  const NodeUrlsVar: string := "YAML_CUSTOM_NODE_URLS"

  /** The environment variable of a model category: `CIVITAI_` and its name upper-cased. */
  function VarName(cat: string): (name: string)
    ensures StartsWith(name, "CIVITAI_")
  {
    "CIVITAI_" + Upper(cat)
  }

  /** No category variable is the custom-node variable. */
  lemma NodeUrlsVarIsNoCategory(cat: string)
    ensures VarName(cat) != NodeUrlsVar
    ensures !StartsWith(NodeUrlsVar, "CIVITAI_")
  {
    assert NodeUrlsVar[0] == 'Y' && VarName(cat)[0] == 'C';
  }

  /** `item.get('urn') or item.get('url') or item.get('id')`: where a model entry is fetched from. */
  function Locator(item: Value): Value {
    Or(Or(Get(item, "urn"), Get(item, "url")), Get(item, "id"))
  }

  /** `isinstance(wf, dict) and wf.get('name') == selected`. */
  predicate NamedAs(wf: Value, selected: string) {
    wf.Map? && Equal(Get(wf, "name"), Str(selected))
  }

  /** Position of the first workflow named `selected`, or `|wfs|`: where the selection loop breaks. */
  function FirstNamed(wfs: seq<Value>, selected: string): (i: nat)
    ensures i <= |wfs|
    ensures i < |wfs| ==> NamedAs(wfs[i], selected)
    ensures forall j :: 0 <= j < i ==> !NamedAs(wfs[j], selected)
  {
    if wfs == [] then 0
    else if NamedAs(wfs[0], selected) then 0
    else 1 + FirstNamed(wfs[1..], selected)
  }

  /** The workflow whose overlay applies: none for an empty selector or when no name matches. */
  function Selected(wfs: seq<Value>, selected: string): (r: Option<Value>)
    ensures r.Some? ==> r.value in wfs && NamedAs(r.value, selected)
    ensures r.Some? ==> exists i :: 0 <= i < |wfs| && wfs[i] == r.value && forall j :: 0 <= j < i ==> !NamedAs(wfs[j], selected)
    ensures selected == "" ==> r.None?
    ensures r.None? && selected != "" ==> forall wf :: wf in wfs ==> !NamedAs(wf, selected)
  {
    var i := FirstNamed(wfs, selected);
    if selected == "" || i == |wfs| then None else Some(wfs[i])
  }

  /** The selection loop shared by both resolvers: the first workflow named `selected`, then `break`. */
  method FindWorkflow(wfs: seq<Value>, selected: string) returns (found: Option<Value>)
    requires selected != ""
    ensures found == Selected(wfs, selected)
  {
    found := None;
    var i := 0;
    while i < |wfs|
      invariant 0 <= i <= |wfs|
      invariant forall j :: 0 <= j < i ==> !NamedAs(wfs[j], selected)
    {
      var wf := wfs[i];
      if wf.Map? && Equal(Get(wf, "name"), Str(selected)) {
        found := Some(wf);
        break;
      }
      i := i + 1;
    }
  }

  /** A node whose `url` is true is a string there, as the later `join` demands. */
  predicate UrlIsStr(node: Value) {
    node.Map? && Truthy(Get(node, "url")) ==> Get(node, "url").Str?
  }

  /** The `url` of every mapping node whose `url` is true, in order. */
  function NodeUrls(nodes: seq<Value>): (urls: seq<string>)
    ensures |urls| <= |nodes|
    ensures (forall k :: 0 <= k < |nodes| ==> !(nodes[k].Map? && Truthy(Get(nodes[k], "url")))) ==> urls == []
  {
    if nodes == [] then []
    else
      var node := nodes[|nodes| - 1];
      NodeUrls(nodes[..|nodes| - 1])
      + (if node.Map? && Truthy(Get(node, "url")) then [ToStr(Get(node, "url"))] else [])
  }

  /** The url list of a concatenation is the concatenation of the url lists. */
  lemma {:induction false} NodeUrlsAppend(xs: seq<Value>, ys: seq<Value>)
    ensures NodeUrls(xs + ys) == NodeUrls(xs) + NodeUrls(ys)
    decreases |ys|
  {
    if ys == [] {
      assert xs + ys == xs;
    } else {
      var init := ys[..|ys| - 1];
      NodeUrlsStep(xs, ys);
      NodeUrlsAppend(xs, init);
      AppendAssociates(NodeUrls(xs), NodeUrls(init), NodeUrls([ys[|ys| - 1]]));
    }
  }

  /** Both sides of the append lemma with the last element of `ys` split off. */
  lemma NodeUrlsStep(xs: seq<Value>, ys: seq<Value>)
    requires ys != []
    ensures var last := NodeUrls([ys[|ys| - 1]]);
            NodeUrls(xs + ys) == NodeUrls(xs + ys[..|ys| - 1]) + last
            && NodeUrls(ys) == NodeUrls(ys[..|ys| - 1]) + last
  {
    var init, last := ys[..|ys| - 1], ys[|ys| - 1];
    assert ys == init + [last];
    assert xs + ys == (xs + init) + [last];
    NodeUrlsSnoc(xs + ys, xs + init, last);
    NodeUrlsSnoc(ys, init, last);
  }

  lemma NodeUrlsSnoc(zs: seq<Value>, init: seq<Value>, last: Value)
    requires zs == init + [last]
    ensures NodeUrls(zs) == NodeUrls(init) + NodeUrls([last])
  {
    assert zs[..|zs| - 1] == init;
    assert [last][..0] == [];
  }


  /** The first `i + 1` nodes: the first `i`, then node `i`. */
  lemma NodeUrlsPrefix(nodes: seq<Value>, i: nat)
    requires i < |nodes|
    ensures var node := nodes[i];
            NodeUrls(nodes[..i + 1]) == NodeUrls(nodes[..i]) + (if node.Map? && Truthy(Get(node, "url")) then [ToStr(Get(node, "url"))] else [])
  {
    assert nodes[..i + 1][..i] == nodes[..i];
  }

  /** The url-collecting loop over a node list. */
  method CollectNodeUrls(nodes: seq<Value>) returns (urls: seq<string>)
    ensures urls == NodeUrls(nodes)
  {
    urls := [];
    for i := 0 to |nodes|
      invariant urls == NodeUrls(nodes[..i])
    {
      var node := nodes[i];
      NodeUrlsPrefix(nodes, i);
      if node.Map? {
        var url := Get(node, "url");
        if Truthy(url) {
          urls := urls + [ToStr(url)];
        }
      }
    }
    assert nodes[..|nodes|] == nodes;
  }

  // ------------------------------------------------------------------
  // What both resolvers read from the document
  // ------------------------------------------------------------------

  /** The global `models` mapping. */
  function Models(root: Value): seq<(string, Value)> {
    Entries(GetOr(root, "models", EmptyMap))
  }

  /** The global `custom_nodes`. */
  function GlobalNodes(root: Value): seq<Value> {
    Iterate(GetOr(root, "custom_nodes", EmptyList))
  }

  /** The workflow whose overlay applies (none for an empty selector). */
  function SelectedWorkflow(root: Value, selected: string): Option<Value> {
    if selected == "" then None
    else Selected(Iterate(GetOr(root, "workflows", EmptyList)), selected)
  }

  function WorkflowModels(root: Value, selected: string): seq<(string, Value)> {
    match SelectedWorkflow(root, selected)
    case None => []
    case Some(wf) => Entries(GetOr(wf, "models", EmptyMap))
  }

  function WorkflowNodes(root: Value, selected: string): seq<Value> {
    match SelectedWorkflow(root, selected)
    case None => []
    case Some(wf) => Iterate(GetOr(wf, "custom_nodes", EmptyList))
  }

  /** The workflow's `models` is a mapping and its `custom_nodes` iterable, with string urls. */
  predicate WorkflowOk(wf: Option<Value>) {
    wf.Some? ==>
      var m := GetOr(wf.value, "models", EmptyMap);
      var nodes := GetOr(wf.value, "custom_nodes", EmptyList);
      m.Map? && DistinctKeys(m.entries) && Iterable(nodes)
      && forall node :: node in Iterate(nodes) ==> UrlIsStr(node)
  }

}
