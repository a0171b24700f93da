/**
 * The installer's YAML-to-shell step as its processing test runs it: it
 * prints `NAME=value` lines for the installation overrides, the model
 * directories, one `CIVITAI_<CATEGORY>` line per merged category with
 * identifiers, and always a `YAML_CUSTOM_NODE_URLS` line; on standard error
 * it reports the workflow selection and every reference it cannot resolve.
 * The document is read as `safe_load(...) or {}`. Shell quoting of the
 * values is not modelled: a line carries the unquoted `str()` of the value.
 */
module YamlProcessing {
  import opened Wrappers
  import opened Text
  import opened Yaml
  import opened Manifest
  import opened ModelMerge

  /** What the step prints: `(name, value)` lines on standard output, messages on standard error. */
  datatype Output = Output(stdout: seq<(string, string)>, stderr: seq<string>)

  /** `export_var(name, value)`: nothing for `None`, one line otherwise. */
  function ExportVar(name: string, v: Value): (lines: seq<(string, string)>)
    ensures v.Null? <==> lines == []
    ensures lines != [] ==> lines == [(name, ToStr(v))]
  {
    if v.Null? then [] else [(name, ToStr(v))]
  }

  /** The document as the step sees it. */
  function Data(root: Value): Value {
    Or(root, EmptyMap)
  }

  function Install(data: Value): Value {
    GetOr(data, "install", EmptyMap)
  }

  /** The four lines before the model categories. */
  function Header(data: Value): seq<(string, string)> {
    var install := Install(data);
    var models := GetOr(data, "models", EmptyMap);
    ExportVar("COMFY_DIR", Get(install, "comfy_dir"))
    + [("CPU_ONLY", if Truthy(GetOr(install, "cpu_only", Bool(true))) then "1" else "0")]
    + ExportVar("MODEL_DEST_DIR", Get(models, "dest_dir"))
    + ExportVar("MODELS_SOURCE_DIR", Get(models, "source_dir"))
  }

  /**
   * `int(bool(install.get('cpu_only', True)))`: the header says `CPU_ONLY=0`
   * exactly when `cpu_only` is present and false (an explicit null
   * included), and `CPU_ONLY=1` otherwise, absent key included.
   */
  lemma HeaderCpuOnly(data: Value)
    ensures var install := Install(data);
            var off := HasKey(install, "cpu_only") && !Truthy(Get(install, "cpu_only"));
            (("CPU_ONLY", "0") in Header(data) <==> off) && (("CPU_ONLY", "1") in Header(data) <==> !off)
    ensures HasKey(Install(data), "cpu_only") && Get(Install(data), "cpu_only") == Null ==> ("CPU_ONLY", "0") in Header(data)
  {
    var install := Install(data);
    var models := GetOr(data, "models", EmptyMap);
    var a := ExportVar("COMFY_DIR", Get(install, "comfy_dir"));
    var c := ExportVar("MODEL_DEST_DIR", Get(models, "dest_dir"));
    var d := ExportVar("MODELS_SOURCE_DIR", Get(models, "source_dir"));
    var line := ("CPU_ONLY", if Truthy(GetOr(install, "cpu_only", Bool(true))) then "1" else "0");
    assert Header(data) == a + [line] + c + d;
    assert forall l: (string, string) :: l in a + c + d ==> l.0 != "CPU_ONLY";
  }

  // ------------------------------------------------------------------
  // extract_ids
  // ------------------------------------------------------------------

  /**
   * What one entry adds to `extract_ids`' list: `"REF:" + ref` for a
   * mapping with a `ref` key, its locator for any other mapping that has
   * one, the text of any other true value.
   */
  function ItemPart(item: Value): (parts: seq<string>)
    ensures |parts| <= 1
  {
    if item.Map? then
      if HasKey(item, "ref") then [RefPrefix + ToStr(Get(item, "ref"))]
      else if Truthy(Locator(item)) then [ToStr(Locator(item))]
      else []
    else if Truthy(item) then [ToStr(item)]
    else []
  }

  function Parts(items: seq<Value>): seq<string> {
    if items == [] then []
    else Parts(items[..|items| - 1]) + ItemPart(items[|items| - 1])
  }

  /** `extract_ids(lst if isinstance(lst, list) else None)`: the parts joined by commas, or `None`. */
  function ExtractedIds(lst: Value): (ids: Option<string>)
    ensures !lst.List? ==> ids.None?
    ensures lst.List? ==> ids == (if Parts(lst.items) == [] then None else Some(Join(Parts(lst.items), ",")))
  {
    if !lst.List? || lst.items == [] then None
    else
      var out := Parts(lst.items);
      if out == [] then None else Some(Join(out, ","))
  }

  // ------------------------------------------------------------------
  // resolve_refs
  // ------------------------------------------------------------------

  /** A pool entry with `id` equal to `r` and a true locator. */
  predicate LocatedMatch(item: Value, r: string) {
    item.Map? && Get(item, "id") == Str(r) && Truthy(Locator(item))
  }

  /** The first pool entry `resolve_refs` accepts for `r`, or `|pool|`: an `id` match with no locator is passed over. */
  function FirstLocatedMatch(pool: seq<Value>, r: string): (k: nat)
    ensures k <= |pool|
    ensures k < |pool| ==> LocatedMatch(pool[k], r)
    ensures forall j :: 0 <= j < k ==> !LocatedMatch(pool[j], r)
  {
    if pool == [] then 0
    else if LocatedMatch(pool[0], r) then 0
    else 1 + FirstLocatedMatch(pool[1..], r)
  }

  /** What one comma-separated piece resolves to: nothing when blank, a `REF:` piece the accepted locator. */
  function ResolvedPart(part: string, pool: seq<Value>): (ids: seq<string>)
    ensures |ids| <= 1
  {
    var p := Strip(part);
    if p == [] then []
    else if StartsWith(p, RefPrefix) then
      var k := FirstLocatedMatch(pool, p[|RefPrefix|..]);
      if k < |pool| then [ToStr(Locator(pool[k]))] else []
    else [p]
  }

  /** The warning one piece raises: only a `REF:` piece with no accepted pool entry. */
  function PartWarning(cat: string, part: string, pool: seq<Value>): (w: seq<string>)
    ensures |w| <= 1
  {
    var p := Strip(part);
    if p != [] && StartsWith(p, RefPrefix) && FirstLocatedMatch(pool, p[|RefPrefix|..]) == |pool| then
      ["WARNING_REF_NOT_FOUND:" + p[|RefPrefix|..] + ":" + cat]
    else []
  }

  /** A `REF:` piece whose ref no pool entry accepts resolves to nothing and raises the not-found warning. */
  lemma UnresolvedRefWarns(cat: string, r: string, pool: seq<Value>)
    requires Trimmed(RefPrefix + r)
    requires forall j :: 0 <= j < |pool| ==> !LocatedMatch(pool[j], r)
    ensures ResolvedPart(RefPrefix + r, pool) == []
    ensures PartWarning(cat, RefPrefix + r, pool) == ["WARNING_REF_NOT_FOUND:" + r + ":" + cat]
  {
    RefPiece(r);
    assert FirstLocatedMatch(pool, r) == |pool|;
  }

  /**
   * A `REF:` piece whose ref some pool entry accepts raises no warning and
   * resolves to the locator of the first such entry.
   */
  lemma ResolvedRefSilent(cat: string, r: string, pool: seq<Value>, j: nat)
    requires Trimmed(RefPrefix + r)
    requires j < |pool| && LocatedMatch(pool[j], r)
    ensures PartWarning(cat, RefPrefix + r, pool) == []
    ensures exists k :: 0 <= k <= j && LocatedMatch(pool[k], r) && (forall i :: 0 <= i < k ==> !LocatedMatch(pool[i], r))
              && ResolvedPart(RefPrefix + r, pool) == [ToStr(Locator(pool[k]))]
  {
    RefPiece(r);
    var k := FirstLocatedMatch(pool, r);
    assert k <= j;
    assert ResolvedPart(RefPrefix + r, pool) == [ToStr(Locator(pool[k]))];
  }

  /** A trimmed `REF:` piece is its own stripped form, and the ref follows the prefix. */
  lemma RefPiece(r: string)
    requires Trimmed(RefPrefix + r)
    ensures var p := RefPrefix + r;
            Strip(p) == p && p != [] && StartsWith(p, RefPrefix) && p[|RefPrefix|..] == r
  {
    var p := RefPrefix + r;
    assert p[..|RefPrefix|] == RefPrefix;
  }

  function ResolvedParts(parts: seq<string>, pool: seq<Value>): seq<string> {
    if parts == [] then []
    else ResolvedParts(parts[..|parts| - 1], pool) + ResolvedPart(parts[|parts| - 1], pool)
  }

  function PartWarnings(cat: string, parts: seq<string>, pool: seq<Value>): seq<string> {
    if parts == [] then []
    else PartWarnings(cat, parts[..|parts| - 1], pool) + PartWarning(cat, parts[|parts| - 1], pool)
  }

  /** The pieces `resolve_refs` walks over: `(items or '').split(',')`. */
  function Pieces(ids: Option<string>): seq<string> {
    Split(ids.GetOr(""), ',')
  }

  /** `resolve_refs(cat, ids, pools)`'s result. */
  function ResolvedIds(cat: string, ids: Option<string>, pools: Dict<Value>): Option<string> {
    var r := ResolvedParts(Pieces(ids), PoolOf(pools, cat));
    if r == [] then None else Some(Join(r, ","))
  }

  /** `resolve_refs(cat, ids, pools)`'s warnings. */
  function RefWarnings(cat: string, ids: Option<string>, pools: Dict<Value>): seq<string> {
    PartWarnings(cat, Pieces(ids), PoolOf(pools, cat))
  }

  // ------------------------------------------------------------------
  // The category lines and the whole step
  // ------------------------------------------------------------------

  /** The line of one merged category: present when its resolved ids are non-empty. */
  function CategoryLine(e: (string, Value), pools: Dict<Value>): seq<(string, string)> {
    var ids := ResolvedIds(e.0, ExtractedIds(e.1), pools);
    if ids.Some? && ids.value != "" then [(VarName(e.0), ids.value)] else []
  }

  function CategoryLines(all: Dict<Value>, pools: Dict<Value>): seq<(string, string)> {
    if all == [] then []
    else CategoryLines(all[..|all| - 1], pools) + CategoryLine(all[|all| - 1], pools)
  }

  function CategoryWarnings(all: Dict<Value>, pools: Dict<Value>): seq<string> {
    if all == [] then []
    else
      var e := all[|all| - 1];
      CategoryWarnings(all[..|all| - 1], pools) + RefWarnings(e.0, ExtractedIds(e.1), pools)
  }

  /** What the selection loop reports on standard error. */
  function SelectionLog(data: Value, selected: string): seq<string> {
    if selected == "" then []
    else if SelectedWorkflow(data, selected).Some? then ["SELECTED_WORKFLOW=" + selected]
    else ["WORKFLOW_NOT_FOUND:" + selected]
  }

  /** All custom-node URLs: the global ones, then the selected workflow's. */
  function AllNodeUrls(data: Value, selected: string): seq<string> {
    NodeUrls(GlobalNodes(data)) + NodeUrls(WorkflowNodes(data, selected))
  }

  /** A category whose pieces include a `REF:` one has an iterable global pool. */
  predicate CategoryOk(e: (string, Value), pools: Dict<Value>) {
    (exists p :: p in Pieces(ExtractedIds(e.1)) && StartsWith(Strip(p), RefPrefix)) ==>
      Iterable(Find(pools, e.0).GetOr(EmptyList))
  }

  /** The document is one the step runs on to the end. */
  predicate Processable(root: Value, selected: string) {
    var data := Data(root);
    data.Map?
    && Install(data).Map?
    && GetOr(data, "models", EmptyMap).Map? && DistinctKeys(Models(data))
    && (selected != "" ==> Iterable(GetOr(data, "workflows", EmptyList)))
    && WorkflowOk(SelectedWorkflow(data, selected))
    && Merge(Models(data), WorkflowModels(data, selected)).Some?
    && (var all := Merge(Models(data), WorkflowModels(data, selected)).value;
        forall e :: e in all ==> CategoryOk(e, Pools(Models(data), |Models(data)|)))
    && Iterable(GetOr(data, "custom_nodes", EmptyList))
  }

  /** Everything the step prints for a loaded document and a workflow name (`""` for none). */
  function Process(root: Value, selected: string): Output
    requires Processable(root, selected)
  {
    var data := Data(root);
    var models := Models(data);
    var all := Merge(models, WorkflowModels(data, selected)).value;
    var pools := Pools(models, |models|);
    Output(
      Header(data) + CategoryLines(all, pools) + [(NodeUrlsVar, Join(AllNodeUrls(data, selected), " "))],
      SelectionLog(data, selected) + CategoryWarnings(all, pools))
  }

  // ------------------------------------------------------------------
  // The loops
  // ------------------------------------------------------------------

  method ExtractIds(lst: Value) returns (ids: Option<string>)
    ensures ids == ExtractedIds(lst)
  {
    if !lst.List? || lst.items == [] {
      return None;
    }
    var items := lst.items;
    var out := [];
    for i := 0 to |items|
      invariant out == Parts(items[..i])
    {
      var item := items[i];
      assert items[..i + 1][..i] == items[..i];
      if item.Map? {
        var val;
        if HasKey(item, "ref") {
          val := RefPrefix + ToStr(Get(item, "ref"));
        } else {
          var loc := Locator(item);
          val := if Truthy(loc) then ToStr(loc) else "";
        }
        if val != "" {
          out := out + [val];
        }
      } else if Truthy(item) {
        out := out + [ToStr(item)];
      }
    }
    assert items[..|items|] == items;
    ids := if out == [] then None else Some(Join(out, ","));
  }

  /** The pool scan of one `REF:` piece; `found` tells whether an entry was accepted. */
  method FindLocated(pool: seq<Value>, r: string) returns (found: bool, actual: string)
    ensures found <==> FirstLocatedMatch(pool, r) < |pool|
    ensures found ==> actual == ToStr(Locator(pool[FirstLocatedMatch(pool, r)]))
  {
    found := false;
    actual := "";
    for k := 0 to |pool|
      invariant forall j :: 0 <= j < k ==> !LocatedMatch(pool[j], r)
    {
      var item := pool[k];
      if item.Map? && Equal(Get(item, "id"), Str(r)) {
        EqualStr(Get(item, "id"), r);
        var loc := Locator(item);
        if Truthy(loc) {
          actual := ToStr(loc);
          found := true;
          break;
        }
      } else if item.Map? {
        EqualStr(Get(item, "id"), r);
      }
    }
  }

  /** Both piece loops with one more piece. */
  lemma PartsStep(cat: string, parts: seq<string>, i: nat, pool: seq<Value>)
    requires i < |parts|
    ensures ResolvedParts(parts[..i + 1], pool) == ResolvedParts(parts[..i], pool) + ResolvedPart(parts[i], pool)
    ensures PartWarnings(cat, parts[..i + 1], pool) == PartWarnings(cat, parts[..i], pool) + PartWarning(cat, parts[i], pool)
  {
    assert parts[..i + 1][..i] == parts[..i];
  }

  method ResolveRefs(cat: string, ids: Option<string>, pools: Dict<Value>) returns (resolved: Option<string>, warnings: seq<string>)
    ensures resolved == ResolvedIds(cat, ids, pools)
    ensures warnings == RefWarnings(cat, ids, pools)
  {
    var parts := Pieces(ids);
    var pool := PoolOf(pools, cat);
    var out := [];
    warnings := [];
    for i := 0 to |parts|
      invariant out == ResolvedParts(parts[..i], pool)
      invariant warnings == PartWarnings(cat, parts[..i], pool)
    {
      PartsStep(cat, parts, i, pool);
      var p := Strip(parts[i]);
      if p == [] {
        continue;
      }
      if StartsWith(p, RefPrefix) {
        var r := p[|RefPrefix|..];
        var found, actual := FindLocated(pool, r);
        if found {
          out := out + [actual];
        } else {
          warnings := warnings + ["WARNING_REF_NOT_FOUND:" + r + ":" + cat];
        }
      } else {
        out := out + [p];
      }
    }
    assert parts[..|parts|] == parts;
    resolved := if out == [] then None else Some(Join(out, ","));
  }

  lemma CategoriesStep(all: Dict<Value>, i: nat, pools: Dict<Value>)
    requires i < |all|
    ensures CategoryLines(all[..i + 1], pools) == CategoryLines(all[..i], pools) + CategoryLine(all[i], pools)
    ensures CategoryWarnings(all[..i + 1], pools) == CategoryWarnings(all[..i], pools) + RefWarnings(all[i].0, ExtractedIds(all[i].1), pools)
  {
    assert all[..i + 1][..i] == all[..i];
  }

  /** The category loop. */
  method ExportCategories(all: Dict<Value>, pools: Dict<Value>) returns (lines: seq<(string, string)>, warnings: seq<string>)
    ensures lines == CategoryLines(all, pools)
    ensures warnings == CategoryWarnings(all, pools)
  {
    lines := [];
    warnings := [];
    for i := 0 to |all|
      invariant lines == CategoryLines(all[..i], pools)
      invariant warnings == CategoryWarnings(all[..i], pools)
    {
      var (cat, lst) := all[i];
      CategoriesStep(all, i, pools);
      var extracted := ExtractIds(lst);
      var ids, w := ResolveRefs(cat, extracted, pools);
      warnings := warnings + w;
      if ids.Some? && ids.value != "" {
        lines := lines + [(VarName(cat), ids.value)];
      }
    }
    assert all[..|all|] == all;
  }

  /** The selection loop with its `for ... else`. */
  method SelectWorkflow(data: Value, selected: string) returns (workflowModels: Dict<Value>, workflowNodes: seq<string>, log: seq<string>)
    requires data.Map? && WorkflowOk(SelectedWorkflow(data, selected))
    ensures workflowModels == WorkflowModels(data, selected)
    ensures workflowNodes == NodeUrls(WorkflowNodes(data, selected))
    ensures log == SelectionLog(data, selected)
  {
    workflowModels := [];
    workflowNodes := [];
    log := [];
    if selected != "" {
      var wf := FindWorkflow(Iterate(GetOr(data, "workflows", EmptyList)), selected);
      if wf.Some? {
        log := ["SELECTED_WORKFLOW=" + selected];
        workflowModels := CopyMapping(Entries(GetOr(wf.value, "models", EmptyMap)));
        workflowNodes := CollectNodeUrls(Iterate(GetOr(wf.value, "custom_nodes", EmptyList)));
      } else {
        log := ["WORKFLOW_NOT_FOUND:" + selected];
      }
    }
  }

  /** The whole step. */
  method Run(root: Value, selected: string) returns (stdout: seq<(string, string)>, stderr: seq<string>)
    requires Processable(root, selected)
    ensures Output(stdout, stderr) == Process(root, selected)
  {
    var data := Or(root, EmptyMap);
    var install := GetOr(data, "install", EmptyMap);
    stdout := ExportVar("COMFY_DIR", Get(install, "comfy_dir"));
    stdout := stdout + [("CPU_ONLY", if Truthy(GetOr(install, "cpu_only", Bool(true))) then "1" else "0")];
    var modelsValue := GetOr(data, "models", EmptyMap);
    stdout := stdout + ExportVar("MODEL_DEST_DIR", Get(modelsValue, "dest_dir"));
    stdout := stdout + ExportVar("MODELS_SOURCE_DIR", Get(modelsValue, "source_dir"));

    var workflowModels, workflowNodes, log := SelectWorkflow(data, selected);
    stderr := log;
    var models := Entries(modelsValue);
    var allModels := MergeModels(models, workflowModels);
    var pools := CollectPools(models);
    var lines, warnings := ExportCategories(allModels, pools);
    stdout := stdout + lines;
    stderr := stderr + warnings;

    var urls := CollectNodeUrls(Iterate(GetOr(data, "custom_nodes", EmptyList)));
    urls := urls + workflowNodes;
    stdout := stdout + [(NodeUrlsVar, Join(urls, " "))];
  }
}
