# comfy-ez-installer, modelled in Dafny

comfy-ez-installer sets up ComfyUI from one YAML file, `config.yml`. That file
lists global model categories (`checkpoints`, `loras`, …), global custom nodes,
and named *workflows*. A workflow adds its own models and nodes. A workflow
item may also point at a global entry with a `ref` field. This project models
the logic that reads such a document and proves properties of it:

- **The validator** (`scripts/validate_config.py`). It checks the allowed
  top-level and `install` keys and the shape of every model item and custom
  node, then checks that every workflow `ref` names an existing global `id`.
  It prints a report and exits with 0 (valid), 1 (violations, a YAML syntax
  error, or a file whose reading raises) or 2 (PyYAML missing, no path given,
  or the path is not a regular file). Module `ValidateConfig` states each check as
  a function producing the exact error messages, in order. Each check is also
  a method whose loops are proved against that function. Module
  `ValidateConfigProperties` proves what the messages mean:
  - when a check is silent (both directions);
  - that an unknown key, a conflict or an unresolved ref is reported exactly
    once;
  - which ids a ref can resolve to.
- **Two copies of the installer's YAML step.** Both turn a document and an
  optional workflow name into shell variables: `CIVITAI_<CATEGORY>` holds a
  comma-separated list of model locators, and `YAML_CUSTOM_NODE_URLS` holds
  the node URLs.
  - **Copy A** (`simulate_yaml_processing` in `tests/test_workflow_references.py`)
    is modelled by `WorkflowReferences` and `WorkflowReferencesProperties`.
  - **Copy B** (the embedded script in `tests/test_yaml_processing.py`) is
    modelled by `YamlProcessing`.
  - Both share:
    - the workflow selection and the node-URL filter (`Manifest`);
    - the merge of global and workflow models, which is the same code in both
      (`ModelMerge`).
  - `ResolverComparison` proves the two copies agree on every clean document.
    It also gives concrete documents on which they differ.
- **The model downloader's pure core** (`scripts/download_civitai_models.py`),
  in `DownloadCivitai`:
  - AIR URN parsing, with its round trip;
  - direct-URL detection and destination paths;
  - model-spec parsing (`id`, `id:version`, `…:civitai:id@version`);
  - building the `(model, directory)` work list from the category arguments
    and the environment;
  - the download-thread count;
  - choosing the version and the files to download.
- **The installer's node-URL handling** (`tests/test_install_script.py`), in
  `InstallScript`: git-URL classification, the `git+` prefix strip, the
  repository name, and the extraction and merge of node URLs. One lemma ties
  the merge to copy B's node list.

Shared data:
- A parsed YAML document is `Yaml.Value`: strings, booleans, integers, null,
  lists, and mappings that keep their keys in document order.
- Python's truth value, `or`, `.get`, iteration, `==`/hashing of scalars and
  `str()` are written out in `Yaml`.
- Text operations (`strip`, `split`, `join`, `upper`, `lower`) are written
  out in `Text`. `int()`'s numeral syntax is `DownloadCivitai.Numeral` and
  `DownloadCivitai.ParseInt`, next to its one caller.
- A Python dict assigned key by key is `Dict<V>`, a sequence of pairs that
  keeps insertion order, with `Put` and `Find`.

Where the code and its own documentation disagree, the model follows the code:
- `get_download_threads` defaults to 4 (`scripts/download_civitai_models.py:170`).
  The `--download-threads` option (line 64) and `MAX_WORKERS` (line 350) default
  to 3, and the comment at line 348 says 4. `DefaultThreads` is `"4"`.
- `parse_urn` checks `namespace != "air"` after a `startswith("urn:air:")`
  test, so that check can never fail. `DownloadCivitai.ParseUrnAccepts` states
  the acceptance condition without it.
- A custom node without `url` and `id` is reported as `custom_nodes[i] missing
  'url' or 'id' field` (`scripts/validate_config.py:87`). That is the message
  the model produces.
- A YAML syntax error exits with status 1 (`scripts/validate_config.py:28-30`),
  not with the "fatal" status 2.
- The docstring (`scripts/validate_config.py:4`) gives status 2 for an
  unreadable file. The code gives 2 only when PyYAML is missing (lines 13-19),
  or when the path is missing or not a regular file (lines 21-24). A regular
  file whose `read_text()` raises at line 27 (no permission, undecodable
  bytes) is not caught: Python exits with status 1. `ValidateConfig.Loaded`
  keeps these as separate cases (`NoYamlModule`, `NoConfigFile`, `ReadFailed`).

## Model

| member | source | states |
|---|---|---|
| ValidateConfig.ExitCode | scripts/validate_config.py:13-30 | for a document the script validates to its end: status 2 exactly when PyYAML is missing or there is no regular file at the given path; 1 exactly for a file whose reading raises, a YAML syntax error or a document with violations; 0 exactly for a document without any |
| ValidateConfig.Report | scripts/validate_config.py:199-205 | no errors print only the pass line; otherwise the failure header and then one `  - ` line per error, in order |
| ValidateConfig.CheckTopLevel | scripts/validate_config.py:34-38 | the loop over the root's keys yields TopLevelErrors: one message per key outside the four allowed, in key order |
| ValidateConfig.CheckInstall | scripts/validate_config.py:40-48 | the install check yields InstallErrors (not-a-mapping, unknown keys in order, then the cpu_only type error) |
| ValidateConfig.CheckItems | scripts/validate_config.py:60-75 | every item of a category list is checked in order, giving the missing-content, conflict and type messages of ItemListErrors |
| ValidateConfig.CheckSection | scripts/validate_config.py:54-75 | every category of a models mapping is checked in key order, skipping dest_dir and source_dir only in the global section |
| ValidateConfig.CheckModels | scripts/validate_config.py:50-75 | the global models check yields ModelsErrors (a falsy section counts as empty, a non-mapping is one error) |
| ValidateConfig.CheckCustomNodes | scripts/validate_config.py:77-87 | the global node check yields CustomNodesErrors (a truthy non-list is one error, otherwise one message per bad node) |
| ValidateConfig.CheckWorkflowNodes | scripts/validate_config.py:132-152 | a workflow's node list yields WorkflowNodesErrors: not-a-mapping, missing url/ref, and the ref-and-url conflict |
| ValidateConfig.CheckWorkflowModels | scripts/validate_config.py:100-130 | a workflow's models yield WorkflowModelsErrors with the `workflows[i].models.` prefix and no path-key skip |
| ValidateConfig.CheckWorkflow | scripts/validate_config.py:93-152 | one workflow yields WorkflowErrors: not-a-mapping, then missing name, models errors, node errors |
| ValidateConfig.CheckWorkflows | scripts/validate_config.py:89-152 | the workflow list yields WorkflowsErrors, workflow by workflow |
| ValidateConfig.CollectIds | scripts/validate_config.py:165-167 | the id set of a category is IdsOf: the canonical `id` of every mapping item that has one |
| ValidateConfig.CollectModelIds | scripts/validate_config.py:159-167 | available_ids is AvailableIds: one id set per global category except the path keys |
| ValidateConfig.CheckCategoryRefs | scripts/validate_config.py:181-187 | one message per ref item of a workflow category whose id is not in that global category |
| ValidateConfig.CheckSectionRefs | scripts/validate_config.py:179-187 | the ref check runs over every category of a workflow's models in key order |
| ValidateConfig.CheckNodeRefs | scripts/validate_config.py:189-197 | one message per workflow node ref that no global custom node id matches |
| ValidateConfig.CheckWorkflowRefs | scripts/validate_config.py:176-197 | a workflow's model refs, then its node refs; non-mapping workflows are skipped |
| ValidateConfig.CheckCrossReferences | scripts/validate_config.py:154-197 | the cross-reference pass yields CrossRefErrors over the index built from the global sections |
| ValidateConfig.Validate | scripts/validate_config.py:32-197 | the whole script's error list is Violations: the structural checks in source order, then the cross-reference errors |
| ValidateConfig.Run | scripts/validate_config.py:13-205 | exit status is ExitCode of what was loaded; a parsed document prints Report of its violations, a load failure prints no report |
| ValidateConfigProperties.EmptyDocumentPasses | scripts/validate_config.py:27 | an empty or falsy document (`or {}`) has no violations, passes and exits 0 |
| ValidateConfigProperties.UnknownKeyReportedOnce | scripts/validate_config.py:34-38 | with distinct keys, the message for key k occurs once if k is present and not allowed, otherwise never |
| ValidateConfigProperties.InstallKeyErrorsMembership | scripts/validate_config.py:44-46 | an unknown install key is reported; there are no key errors iff every key is comfy_dir or cpu_only |
| ValidateConfigProperties.InstallClean | scripts/validate_config.py:40-48 | the install check is silent iff the section is a mapping of allowed keys whose cpu_only, if present, is boolean |
| ValidateConfigProperties.InstallReportsBoth | scripts/validate_config.py:44-48 | an unknown key and a non-boolean cpu_only are both reported |
| ValidateConfigProperties.ItemListClean | scripts/validate_config.py:60-75 | a category list is silent iff every item is a string or a mapping with a locator or ref and not both |
| ValidateConfigProperties.CategoryClean | scripts/validate_config.py:57-75 | a category is silent iff it is a list of well-formed items |
| ValidateConfigProperties.CategoryNotList | scripts/validate_config.py:57-59 | a non-list category gives exactly the one `must be a list` message and its items are not looked at |
| ValidateConfigProperties.SectionClean | scripts/validate_config.py:54-75 | a models section is silent iff every entry is a skipped path key or a clean category |
| ValidateConfigProperties.ItemMessageCount | scripts/validate_config.py:60-75 | among a list's messages, entry `j`'s missing-field, conflict and type messages each occur once when the entry has that problem and never otherwise |
| ValidateConfigProperties.ConflictReportedOnce | scripts/validate_config.py:64-73 | an item with ref and a direct field gets its conflict message exactly once and no missing-field message |
| ValidateConfigProperties.MissingReportedOnce | scripts/validate_config.py:64-73 | a mapping with none of urn, url, id, ref gets its missing-field message exactly once and no conflict message |
| ValidateConfigProperties.ItemTypeReportedOnce | scripts/validate_config.py:62-75 | an item that is neither a string nor a mapping gets `must be str or mapping` exactly once |
| ValidateConfigProperties.NodeListClean | scripts/validate_config.py:81-87 | the global node list is silent iff every node is a mapping with url or id |
| ValidateConfigProperties.NodeClean | scripts/validate_config.py:82-87 | one node is silent iff it is a mapping with url or id |
| ValidateConfigProperties.WorkflowNodeListClean | scripts/validate_config.py:137-152 | a workflow node list is silent iff every node is a mapping with url or ref and not both |
| ValidateConfigProperties.WorkflowNodeClean | scripts/validate_config.py:138-152 | one workflow node is silent iff it is a mapping with url or ref and not both |
| ValidateConfigProperties.IdsOfMembership | scripts/validate_config.py:165-167 | a value is in a category's id set iff some mapping item has an `id` equal to it |
| ValidateConfigProperties.AvailableIdsDomain | scripts/validate_config.py:160-164 | available_ids has a category iff it is a global category other than dest_dir and source_dir |
| ValidateConfigProperties.AvailableIdsAt | scripts/validate_config.py:160-167 | the id set stored for a global category is the id set of its own list |
| ValidateConfigProperties.ModelRefResolves | scripts/validate_config.py:182-187 | a ref in a global category is found iff some item of that category has an equal `id` |
| ValidateConfigProperties.ModelRefMissingCategory | scripts/validate_config.py:184 | a ref into a path key or an absent category is never found |
| ValidateConfigProperties.NodeRefResolves | scripts/validate_config.py:170-197 | a node ref is found iff some global custom node has an equal `id` |
| ValidateConfigProperties.CategoryRefsClean | scripts/validate_config.py:181-187 | a workflow category's ref check is silent iff every ref item is found |
| ValidateConfigProperties.RefReportedOnce | scripts/validate_config.py:181-187 | the not-found message of a ref item occurs once if its ref is missing and never if it is found |
| ValidateConfigProperties.NodeRefsClean | scripts/validate_config.py:189-197 | a workflow's node ref check is silent iff every node ref is found among the global node ids |
| ValidateConfigProperties.NodeRefReportedOnce | scripts/validate_config.py:189-197 | the not-found message of a node ref occurs once if its ref is missing and never if it is found |
| Manifest.VarName | tests/test_workflow_references.py:190 | a category's variable name starts with `CIVITAI_` |
| Manifest.NodeUrlsVarIsNoCategory | tests/test_workflow_references.py:189-218 | no category variable can overwrite YAML_CUSTOM_NODE_URLS |
| Manifest.FirstNamed | tests/test_workflow_references.py:130-131 | the selection loop stops at the first mapping whose name equals the selection; none before it matches |
| Manifest.Selected | tests/test_workflow_references.py:129-143 | a selected workflow is one of the list and named as asked, and no workflow before it is; an empty name selects nothing; no selection means no workflow matches |
| Manifest.FindWorkflow | tests/test_yaml_processing.py:131-145 | the loop with `break` finds Selected |
| Manifest.NodeUrls | tests/test_yaml_processing.py:140-142 | at most one url per node; no node with a truthy url gives no urls |
| Manifest.NodeUrlsAppend | tests/test_yaml_processing.py:180 | the url filter distributes over concatenation of node lists |
| Manifest.CollectNodeUrls | tests/test_yaml_processing.py:173-178 | the global node loop yields NodeUrls of the global nodes |
| ModelMerge.Add | tests/test_workflow_references.py:155 | Python `+` on two nodes is defined exactly for two lists, two strings or two numbers |
| ModelMerge.PoolsFind | tests/test_workflow_references.py:160-163 | a path key has no pool; a global category has its list (or `[]` when falsy); an absent one has none |
| ModelMerge.PoolsKeys | tests/test_workflow_references.py:160-163 | the pools keep the global categories in document order |
| ModelMerge.OverlayFind | tests/test_workflow_references.py:153-157 | after the overlay, a workflow category holds its global value combined with the workflow's list |
| ModelMerge.OverlayUntouched | tests/test_workflow_references.py:153-157 | a category the workflow does not name keeps its value |
| ModelMerge.OverlayKeys | tests/test_workflow_references.py:153-157 | the overlay appends the new categories after the existing ones, in workflow order |
| ModelMerge.MergeFind | tests/test_workflow_references.py:146-157 | the merged value of every category, in terms of its pool and the workflow's list |
| ModelMerge.MergeConcatenates | tests/test_workflow_references.py:154-155 | a category in both places holds the global list followed by the workflow's list |
| ModelMerge.MergeKeepsGlobal | tests/test_workflow_references.py:148-150 | a global category the workflow does not name keeps its list |
| ModelMerge.MergeKeys | tests/test_workflow_references.py:146-157 | merged categories: global ones in order, then the workflow's new ones in order |
| ModelMerge.CollectPools | tests/test_workflow_references.py:160-163 | the pool loop yields Pools |
| ModelMerge.MergeModels | tests/test_workflow_references.py:146-157 | the two merge loops yield Merge |
| ModelMerge.CopyMapping | tests/test_workflow_references.py:133-134 | copying a mapping key by key gives the same mapping |
| WorkflowReferences.NodeEntry | tests/test_workflow_references.py:137-142 | a workflow node contributes at most one entry (its url, else `REF:` and its ref) |
| WorkflowReferences.FirstIdMatch | tests/test_workflow_references.py:176-181 | the pool search stops at the first mapping whose `id` equals the ref; none before it does |
| WorkflowReferences.ItemLocators | tests/test_workflow_references.py:170-187 | an item contributes at most one locator, never an empty one |
| WorkflowReferences.ResolvedNode | tests/test_workflow_references.py:204-214 | a node entry resolves to at most one url |
| WorkflowReferences.CollectNodeEntries | tests/test_workflow_references.py:135-142 | the workflow node loop yields NodeEntries |
| WorkflowReferences.SelectWorkflow | tests/test_workflow_references.py:129-143 | the selection loop yields the selected workflow's models and node entries |
| WorkflowReferences.FindRef | tests/test_workflow_references.py:175-181 | the inner search loop yields FirstIdMatch |
| WorkflowReferences.ResolveCategory | tests/test_workflow_references.py:169-187 | the item loop yields Locators |
| WorkflowReferences.ExportCategories | tests/test_workflow_references.py:168-190 | the category loop yields CategoryVars |
| WorkflowReferences.BuildNodeIndex | tests/test_workflow_references.py:196-199 | the index loop yields NodeIndex |
| WorkflowReferences.ResolveNodeRefs | tests/test_workflow_references.py:202-214 | the node-ref loop yields ResolvedNodes |
| WorkflowReferences.Simulate | tests/test_workflow_references.py:117-220 | the whole function returns Process |
| WorkflowReferencesProperties.LocatorsAppend | tests/test_workflow_references.py:170-187 | the locators of a concatenation are the concatenation of the locators |
| WorkflowReferencesProperties.MergedCategoryIds | tests/test_workflow_references.py:153-190 | a category in both places resolves to the global items' locators followed by the workflow items' locators |
| WorkflowReferencesProperties.CategoryVarsNames | tests/test_workflow_references.py:189-190 | every variable the category loop sets starts with `CIVITAI_` |
| WorkflowReferencesProperties.CategoryVarsAbsent | tests/test_workflow_references.py:189-190 | a variable no category exports is not set |
| WorkflowReferencesProperties.AssignedCategoryVars | tests/test_workflow_references.py:168-190 | the category loop builds the dict of its assignments, made in order |
| WorkflowReferencesProperties.CategoryVarsPresent | tests/test_workflow_references.py:189-190 | a category with locators sets its variable |
| WorkflowReferencesProperties.CategoryVarsLast | tests/test_workflow_references.py:168-190 | the last category exporting a variable decides its value, the comma join of its locators |
| WorkflowReferencesProperties.NodeIndexLookup | tests/test_workflow_references.py:196-199 | an id is indexed iff some node has it, and the index holds the last such node |
| WorkflowReferencesProperties.NodeUrlsVarSet | tests/test_workflow_references.py:216-218 | YAML_CUSTOM_NODE_URLS is set iff there are node urls, to their space join; category variables are unaffected |
| WorkflowReferencesProperties.UnknownWorkflowIsNoSelection | tests/test_workflow_references.py:129-143 | naming a workflow that does not exist gives the output of no selection |
| WorkflowReferencesProperties.NodeRefResolves | tests/test_workflow_references.py:204-209 | a node ref resolves to the url of the last global node with that id |
| WorkflowReferencesProperties.NodeRefMissingDropped | tests/test_workflow_references.py:206-212 | a node ref no global node has is dropped silently |
| YamlProcessing.ExportVar | tests/test_yaml_processing.py:70-73 | a null value prints nothing; any other prints one assignment of its `str()` |
| YamlProcessing.HeaderCpuOnly | tests/test_yaml_processing.py:78 | `CPU_ONLY=0` exactly when `cpu_only` is present and false, an explicit null included; `CPU_ONLY=1` otherwise, also when the key is absent |
| YamlProcessing.ItemPart | tests/test_yaml_processing.py:90-100 | an item contributes at most one piece |
| YamlProcessing.ExtractedIds | tests/test_yaml_processing.py:85-101 | a non-list gives None; a list gives the comma join of its pieces, or None when there are none |
| YamlProcessing.FirstLocatedMatch | tests/test_yaml_processing.py:113-119 | the search stops at the first mapping with an equal `id` and a truthy locator; none before it qualifies |
| YamlProcessing.ResolvedPart | tests/test_yaml_processing.py:105-123 | a piece resolves to at most one id |
| YamlProcessing.PartWarning | tests/test_yaml_processing.py:120-121 | a piece gives at most one warning |
| YamlProcessing.UnresolvedRefWarns | tests/test_yaml_processing.py:109-121 | for any pool, a `REF:` piece whose ref no entry accepts (a mapping with that `id` and a true locator) adds nothing and warns `WARNING_REF_NOT_FOUND:<ref>:<category>` |
| YamlProcessing.ResolvedRefSilent | tests/test_yaml_processing.py:109-121 | a `REF:` piece that some entry accepts warns nothing and resolves to the locator of the first accepting entry |
| YamlProcessing.ExtractIds | tests/test_yaml_processing.py:85-101 | the extraction loop yields ExtractedIds |
| YamlProcessing.FindLocated | tests/test_yaml_processing.py:113-119 | the search loop finds a match iff FirstLocatedMatch is in range, and returns its locator |
| YamlProcessing.ResolveRefs | tests/test_yaml_processing.py:103-124 | the piece loop yields ResolvedIds and, on stderr, RefWarnings |
| YamlProcessing.ExportCategories | tests/test_yaml_processing.py:165-170 | the category loop prints CategoryLines and warns CategoryWarnings |
| YamlProcessing.SelectWorkflow | tests/test_yaml_processing.py:126-145 | the selection yields the workflow's models, its node urls and the selection log line |
| YamlProcessing.Run | tests/test_yaml_processing.py:60-182 | the whole step prints Process on stdout and stderr |
| ResolverComparison.LookupsAgree | tests/test_yaml_processing.py:113-119 | for a non-empty ref both copies' pool searches stop at the same item |
| ResolverComparison.ItemAgrees | tests/test_yaml_processing.py:90-100 | a clean item gives the same ids in both copies |
| ResolverComparison.PartsAgree | tests/test_yaml_processing.py:85-124 | copy B's extract-then-resolve of clean items equals copy A's locators, with no piece containing a comma |
| ResolverComparison.CategoryAgrees | tests/test_yaml_processing.py:165-170 | a clean category exports the comma join of copy A's locators, or nothing when there are none |
| ResolverComparison.CategoryVarsAgree | tests/test_yaml_processing.py:165-170 | with distinct variable names, copy B's category lines are copy A's category variables |
| ResolverComparison.NodesAgree | tests/test_yaml_processing.py:140-142 | nodes with no ref-only entry and no url starting with `REF:` give the same urls in both copies |
| ResolverComparison.OutputsAgree | tests/test_yaml_processing.py:172-181 | copy B's lines equal copy A's variables plus an empty YAML_CUSTOM_NODE_URLS when there are no urls |
| ResolverComparison.EnvOf | tests/test_workflow_references.py:216-220 | copy A's result is its category variables with YAML_CUSTOM_NODE_URLS added when there are urls |
| ResolverComparison.StdoutOf | tests/test_yaml_processing.py:75-181 | copy B's stdout is the install/models header, the category lines, then the node url line |
| ResolverComparison.ResolversAgree | tests/test_yaml_processing.py:60-182 | on a clean document copy B prints the header, then exactly copy A's variables, then an empty url line when copy A sets none |
| ResolverComparison.FirstMatchWithoutLocator | tests/test_workflow_references.py:176-181 | a first id match without a locator stops copy A with nothing, while copy B goes on to a later match |
| ResolverComparison.NodeRefsDiffer | tests/test_yaml_processing.py:140-142 | a workflow node with only a ref resolves in copy A and is dropped by copy B |
| ResolverComparison.MissingRefWarns | tests/test_yaml_processing.py:120-121 | an unresolvable ref exports nothing in both copies, and copy B warns `WARNING_REF_NOT_FOUND:<ref>:<category>` |
| ResolverComparison.EmptyDocumentsDiffer | tests/test_yaml_processing.py:68 | an empty document gives no variables in copy A but CPU_ONLY=1 and an empty url line in copy B; a null document crashes only copy A |
| ResolverComparison.StringCategoryDiffers | tests/test_yaml_processing.py:167 | a string category is iterated character by character in copy A and ignored in copy B |
| ResolverComparison.NumericRefDiffers | tests/test_yaml_processing.py:114 | an integer ref resolves in copy A but never in copy B, which compares the string `REF:` remainder |
| InstallScript.ForgeUrlIsGit | tests/test_install_script.py:97-102 | every URL naming github.com, gitlab.com or bitbucket.org is a git URL |
| InstallScript.PackageNameIsNotGit | tests/test_install_script.py:97-102 | a name with no dot and no `git+` prefix is not a git URL |
| InstallScript.StripGitPrefix | tests/test_install_script.py:116 | a `git+` prefix is removed and nothing else changes; other URLs are kept |
| InstallScript.StripMarkedUrl | tests/test_install_script.py:116 | marking a URL with `git+` and stripping it gives the URL back |
| InstallScript.Basename | tests/test_install_script.py:133 | the basename is the slash-free suffix after the last `/`, or the whole path |
| InstallScript.BasenameOf | tests/test_install_script.py:133 | the basename of `dir/name` is `name` |
| InstallScript.RepoName | tests/test_install_script.py:130-134 | a repository name never contains `/` |
| InstallScript.CleanKeepsBasename | tests/test_install_script.py:132-133 | stripping `git+` keeps the basename |
| InstallScript.RepoNameOfGit | tests/test_install_script.py:130-134 | the name of `dir/name.git` is `name` |
| InstallScript.RepoNameOf | tests/test_install_script.py:130-134 | the name of `dir/name` is `name` when it does not end in `.git` |
| InstallScript.RepoNameOfMarked | tests/test_install_script.py:130-134 | a `git+` URL has the same repository name as the unmarked one |
| InstallScript.TruthyUrls | tests/test_install_script.py:66-68 | at most one url per node, each of them truthy |
| InstallScript.TruthyUrlsTexts | tests/test_install_script.py:259-262 | the `str()` of the truthy urls are the resolver's NodeUrls |
| InstallScript.ListNodeUrls | tests/test_install_script.py:65-68 | the loop yields TruthyUrls of the custom nodes |
| InstallScript.ExportNodeUrls | tests/test_install_script.py:259-264 | the printed line is the space join of the node urls of a missing-or-falsy-as-empty custom_nodes |
| InstallScript.NoNodesExportNothing | tests/test_install_script.py:279-283 | a missing, empty or null custom_nodes gives the empty line |
| InstallScript.ExportedLineSplits | tests/test_install_script.py:259-264 | when no url contains a space, splitting the line on spaces gives the urls back |
| InstallScript.UrlsOf | tests/test_install_script.py:160 | one url per node, each node's `url` |
| InstallScript.MergeNodeUrls | tests/test_install_script.py:159-169 | the merge loop yields the global urls followed by the named workflow's urls (MergedUrls) |
| InstallScript.UrlsOfString | tests/test_install_script.py:160 | when every node has a string url, the comprehension gives the resolver's NodeUrls |
| InstallScript.MergeMatchesResolver | tests/test_install_script.py:159-169 | for nodes with string urls, the merge is exactly copy B's YAML_CUSTOM_NODE_URLS list |
| DownloadCivitai.ParseUrn | scripts/download_civitai_models.py:173-194 | a parsed URN starts with `urn:air:`, has a non-blank model id and colon-free fields |
| DownloadCivitai.ParseUrnAccepts | scripts/download_civitai_models.py:175-185 | a string parses iff it starts with `urn:air:`, splits into six parts and the last is not blank |
| DownloadCivitai.ParseUrnText | scripts/download_civitai_models.py:173-192 | printing a URN with colon-free fields and a non-blank id and parsing it gives it back |
| DownloadCivitai.UrnTextParsed | scripts/download_civitai_models.py:179-192 | a parsed URN prints back to the original string |
| DownloadCivitai.DirectUrlSchemes | scripts/download_civitai_models.py:197-199 | http and https strings are direct URLs; ftp strings and AIR URNs are not |
| DownloadCivitai.Plural | scripts/download_civitai_models.py:259-261 | the directory ends in `s`; it is the category iff that already ends in `s`, else the category plus `s` |
| DownloadCivitai.PluralIdempotent | scripts/download_civitai_models.py:259-261 | pluralising twice is pluralising once |
| DownloadCivitai.GetModelDestPath | scripts/download_civitai_models.py:252-265 | a URN goes under its plural category directory; anything else goes straight into the models directory |
| DownloadCivitai.DestPathOfUrn | scripts/download_civitai_models.py:256-262 | the printed URN of a category lands in that category's plural directory |
| DownloadCivitai.DestPathOfUrl | scripts/download_civitai_models.py:263-265 | a direct URL lands in the models directory itself |
| Text.IndexOf | scripts/download_civitai_models.py:399 | `parts.index`: the first position holding the value, none before it |
| DownloadCivitai.IdAndVersion | scripts/download_civitai_models.py:401-404 | splitting at the first `@`: the id has no `@`; id, `@` and version rebuild the input; no `@` means no version |
| DownloadCivitai.UrnSpec | scripts/download_civitai_models.py:394-411 | a URN spec with a version gives an id without `:` or `@` |
| DownloadCivitai.ColonSpec | scripts/download_civitai_models.py:413-415 | splitting at the first `:`: id, `:` and version rebuild the spec; no `:` means no version |
| DownloadCivitai.ParseModelSpec | scripts/download_civitai_models.py:384-415 | a spec with a version never gives an id containing `:` |
| DownloadCivitai.SpecPlainId | scripts/download_civitai_models.py:393-415 | a plain id gives itself with no version |
| DownloadCivitai.SpecIdColonVersion | scripts/download_civitai_models.py:413-414 | `id:version` gives the id and the version |
| DownloadCivitai.SpecCivitaiUrn | scripts/download_civitai_models.py:394-405 | `urn:air:type:category:civitai:id[@version]` gives the id and the optional version |
| DownloadCivitai.SpecOfUrn | scripts/download_civitai_models.py:396-405 | a URN spec gives the id and version of the part after the first `civitai` |
| DownloadCivitai.SpecMalformedUrn | scripts/download_civitai_models.py:406-411 | a URN spec with no part after a `civitai` falls back to the whole spec with no version |
| DownloadCivitai.ItemEntriesShape | scripts/download_civitai_models.py:136-139 | every item entry is a stripped, non-empty name bound to the category directory, no more entries than pieces |
| DownloadCivitai.ItemEntriesOfJoin | scripts/download_civitai_models.py:136-139 | splitting a comma join of clean names gives one entry per name, in order |
| DownloadCivitai.ItemEntriesClean | scripts/download_civitai_models.py:136-139 | clean names give one entry each, in order |
| DownloadCivitai.ListBound | scripts/download_civitai_models.py:129-139 | a category list's entries all go one level under the destination, into that category |
| DownloadCivitai.ExplicitEntries | scripts/download_civitai_models.py:119-139 | explicit arguments only produce entries in the six known category directories |
| DownloadCivitai.EnvCategory | scripts/download_civitai_models.py:143-152 | a variable names a category only when it starts with `CIVITAI_`, is not a setting and its category is not a known one |
| DownloadCivitai.EnvEntries | scripts/download_civitai_models.py:141-163 | environment entries only go into directories of categories outside the known six |
| DownloadCivitai.AppendItems | scripts/download_civitai_models.py:136-139 | the item loop appends ItemEntries of the comma pieces |
| DownloadCivitai.GetModelEntriesFromArgs | scripts/download_civitai_models.py:115-165 | the entries are the explicit ones, then the environment ones when from_env is set |
| DownloadCivitai.ScanEnvironment | scripts/download_civitai_models.py:141-163 | the environment loop appends EnvEntries |
| DownloadCivitai.ExportedVariableRead | scripts/download_civitai_models.py:150-152 | a lower-case category's `CIVITAI_` variable is read back as that category unless it is one of the six |
| DownloadCivitai.ParseInt | scripts/download_civitai_models.py:170 | `int()` never accepts a blank string |
| DownloadCivitai.ParseIntDigits | scripts/download_civitai_models.py:170 | `int()` of a digit string is its value |
| DownloadCivitai.ParseIntNegated | scripts/download_civitai_models.py:170 | `int()` of `-` and a digit string is the negated value |
| DownloadCivitai.ParseIntOfNat | scripts/download_civitai_models.py:170 | `int(str(n))` is n |
| DownloadCivitai.GetDownloadThreads | scripts/download_civitai_models.py:168-170 | the count is at least 1; it fails exactly when `int()` fails on the setting or the default |
| DownloadCivitai.DownloadThreadsDefault | scripts/download_civitai_models.py:170 | no setting gives 4; `0` gives 1 |
| DownloadCivitai.DownloadThreadsCount | scripts/download_civitai_models.py:170 | a positive count is taken as is |
| DownloadCivitai.DownloadThreadsNegative | scripts/download_civitai_models.py:170 | a negative count gives 1 |
| DownloadCivitai.DownloadThreadsFails | scripts/download_civitai_models.py:170 | a setting without any digit raises |
| DownloadCivitai.FirstVersion | scripts/download_civitai_models.py:454-456 | the search stops at the first version whose `str(id)` equals the request; none before it does |
| DownloadCivitai.ChosenVersion | scripts/download_civitai_models.py:452-462 | some version is chosen iff there are versions, and it is one of them |
| DownloadCivitai.SelectVersion | scripts/download_civitai_models.py:452-462 | the selection code yields ChosenVersion |
| DownloadCivitai.PinnedVersion | scripts/download_civitai_models.py:453-456 | a requested version that exists is chosen, the first with that id |
| DownloadCivitai.LatestVersion | scripts/download_civitai_models.py:457-462 | no request, or a request matching nothing, falls back to the first (latest) version |
| DownloadCivitai.IntVersionId | scripts/download_civitai_models.py:455 | an integer id matches the decimal text of n iff it is n |
| DownloadCivitai.Downloads | scripts/download_civitai_models.py:465-470 | one download per file at most, each with a truthy url and a non-empty name directly under the destination; no fetchable file means nothing |
| DownloadCivitai.PlanDownloads | scripts/download_civitai_models.py:465-470 | the file loop yields Downloads of the version's files |
| DownloadCivitai.DownloadsAppend | scripts/download_civitai_models.py:465-470 | the plan of two file lists in a row is their two plans in a row |
| DownloadCivitai.DownloadsSplit | scripts/download_civitai_models.py:465-470 | the plan is the files before `k`, then file `k`'s download if it is fetched, then the files after |
| DownloadCivitai.DownloadsFetched | scripts/download_civitai_models.py:465-470 | a file with a true `downloadUrl` and `name` is downloaded from that url to `dest_dir / name` |
| DownloadCivitai.DownloadsSkipped | scripts/download_civitai_models.py:465-470 | a file lacking either is skipped: the plan is the plan of the other files |
| DownloadCivitai.DownloadsFrom | scripts/download_civitai_models.py:465-470 | every planned download is the url and destination of some fetched file |

## Left out

- YAML parsing (`yaml.safe_load`) is not modelled: documents are `Yaml.Value` trees with string keys. A syntax error is the `ParseError` case of `ValidateConfig.Loaded`, and a raising `read_text()` is its `ReadFailed` case.
- The messages the validator prints to standard error before exiting early (lines 16-18, 23, 29), and the traceback of an uncaught read error, are not modelled; `Run` prints no report lines in those cases.
- File reading, directory creation (`mkdir`), the network (`requests`, the Civitai API), `tqdm`, and the printing of progress messages are left out. `download_direct_url`, `get_civitai_model_info`, `fetch_model_info`, `download_file`, `download_model` and the rest of `process_model_entry` are I/O around the modelled parts.
- `get_filename_from_url` and the `urlparse` call in `process_model_entry` are not part of this model. URL parsing is a library call.
- `comfyctl.py` is not part of this model.
- `shlex.quote` is not modelled: copy B's exported values are the unquoted strings.
- Command-line parsing (`argparse`) is not modelled: `DownloadCivitai.Args` holds the parsed options.
- `os.environ` is a parameter: a sequence of `(name, value)` pairs in the order Python iterates them. `os.getenv` is an `Option<string>` parameter.
- `upper()`/`lower()` cover ASCII letters only. `strip()` removes the characters `str.isspace` accepts.
- ParseInt: does not accept `_` digit separators or non-ASCII digits, which Python's `int()` does.
- `pathlib.Path` is a sequence of components and `/` appends one; no normalisation.
- DownloadCivitai.Target: `dest_dir / name` is one component below `dest_dir` only for a relative name with no `/`. Python's pathlib replaces the path with an absolute name and adds one component per `/`-separated part. An empty part adds nothing. The same holds for `GetModelDestPath`'s category and file name. So `Downloads`, `DownloadsFetched`, `DestPathOfUrn` and `DestPathOfUrl` describe pathlib's result for such names only.
- Inputs on which Python raises (an `.items()` on a list, iterating an integer, `+` of a list and a string, an unhashable dict key) are not modelled as exceptions. They are excluded by preconditions: `ValidateConfig.Validatable`, `WorkflowReferences.Processable`, `YamlProcessing.Processable`, `InstallScript.MergeOk`, and `DownloadCivitai.SearchOk` with the `PlanDownloads` preconditions. `ExitCode` and `Run` require `Validatable` of a parsed document, so they give those documents no status.
- Python equality and hashing are modelled on scalars (`True == 1`); containers compare structurally.
- `Yaml.Value` has no float, date or timestamp scalars; a YAML document with them is outside the model.
- `Yaml.Repr` writes a string inside a list or mapping between single quotes with no escaping. Python switches to double quotes for a string holding `'` and escapes control characters and backslashes.
- A `Yaml.Map` may hold the same key twice, and `Get` then returns the first value. PyYAML keeps the last one. The lemmas whose statement depends on which duplicate wins require `DistinctKeys`.
- ParseUrn: the `except (ValueError, IndexError)` branch (lines 193-194) cannot be reached, because the six-way unpacking follows a length check, so it has no counterpart.
- InstallScript.ListNodeUrls: keeps the urls as nodes (`node['url']` without `str()`), as lines 66-68 do. Only `TruthyUrlsTexts` relates their `str()` to the resolver's list.
- DownloadThreadsFails: stated only for settings that contain no digit at all. Other malformed settings (`"1x"`, `"--1"`) raise too, but no lemma states it.
- The docstring's examples of `_parse_model_spec` (lines 387-391) are covered by `SpecPlainId`, `SpecIdColonVersion` and `SpecCivitaiUrn`. A URN whose type or category is itself `civitai` makes the first `civitai` part the one used; `SpecOfUrn` states that case and `SpecCivitaiUrn` excludes it.
- The warnings copy A skips (test_workflow_references.py lines 210-212) are not produced, as in the source.
