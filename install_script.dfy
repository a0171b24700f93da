/**
 * The custom-node rules of the install script: which node URLs are cloned
 * with git, how a clone URL is cleaned and named, and how the node URLs of
 * config.yml are collected, exported and merged with a workflow's.
 */
module InstallScript {
  import opened Wrappers
  import opened Text
  import opened Yaml
  import opened Manifest
  import YamlProcessing

  // ------------------------------------------------------------------
  // Git URLs
  // ------------------------------------------------------------------

  /** A node installed by cloning rather than with pip: a `git+` URL or one on a known forge. */
  predicate IsGitUrl(url: string) {
    StartsWith(url, "git+") || Contains(url, "github.com") || Contains(url, "gitlab.com")
    || Contains(url, "bitbucket.org")
  }

  /** A URL that names one of the three forges anywhere is cloned. */
  lemma ForgeUrlIsGit(before: string, host: string, after: string)
    requires host == "github.com" || host == "gitlab.com" || host == "bitbucket.org"
    ensures IsGitUrl(before + host + after)
  {
    ContainsAfter(before, host, after);
  }

  /** Every character of a contained string is in the containing one. */
  lemma {:induction false} ContainsChar(s: string, sub: string, c: char)
    requires Contains(s, sub) && c in sub
    ensures c in s
    decreases |s|
  {
    if StartsWith(s, sub) {
      var k :| 0 <= k < |sub| && sub[k] == c;
      assert s[k] == c;
    } else {
      ContainsChar(s[1..], sub, c);
      var k :| 0 <= k < |s[1..]| && s[1..][k] == c;
      assert s[k + 1] == c;
    }
  }

  /** A package name without a dot and without `git+` (like `requests`) goes to pip. */
  lemma PackageNameIsNotGit(name: string)
    requires '.' !in name && !StartsWith(name, "git+")
    ensures !IsGitUrl(name)
  {
    assert "github.com"[6] == '.' && "gitlab.com"[6] == '.' && "bitbucket.org"[9] == '.';
    if Contains(name, "github.com") {
      ContainsChar(name, "github.com", '.');
    }
    if Contains(name, "gitlab.com") {
      ContainsChar(name, "gitlab.com", '.');
    }
    if Contains(name, "bitbucket.org") {
      ContainsChar(name, "bitbucket.org", '.');
    }
  }

  /** `${u#git+}`: the URL git is given, without the pip-style `git+` marker. */
  function StripGitPrefix(url: string): (clean: string)
    ensures StartsWith(url, "git+") ==> "git+" + clean == url
    ensures !StartsWith(url, "git+") ==> clean == url
  {
    if StartsWith(url, "git+") then url[4..] else url
  }

  /** Marking a URL with `git+` and cleaning it gives the URL back. */
  lemma StripMarkedUrl(url: string)
    ensures StripGitPrefix("git+" + url) == url
  {
    assert ("git+" + url)[..4] == "git+";
    assert ("git+" + url)[4..] == url;
  }

  // ------------------------------------------------------------------
  // Repository names
  // ------------------------------------------------------------------

  /** `os.path.basename`: the text after the last `/`. */
  function Basename(path: string): (name: string)
    ensures '/' !in name
    ensures EndsWith(path, name)
    ensures '/' in path ==> |name| < |path| && path[|path| - |name| - 1] == '/'
    ensures '/' !in path ==> name == path
    decreases |path|
  {
    var i := IndexOf(path, '/');
    if i == |path| then path
    else
      var rest := path[i + 1..];
      var name := Basename(rest);
      assert path[|path| - |name|..] == rest[|rest| - |name|..];
      assert '/' in rest ==> path[|path| - |name| - 1] == rest[|rest| - |name| - 1];
      name
  }

  /** The base name of `dir/name` is `name`. */
  lemma {:induction false} BasenameOf(dir: string, name: string)
    requires '/' !in name
    ensures Basename(dir + "/" + name) == name
    decreases |dir|
  {
    var path := dir + "/" + name;
    var i := IndexOf(path, '/');
    if '/' in dir {
      var j := IndexOf(dir, '/');
      assert path[j] == '/';
      assert i == j;
      assert path[i + 1..] == dir[j + 1..] + "/" + name;
      BasenameOf(dir[j + 1..], name);
    } else {
      IndexOfAt(dir, '/', name);
      assert path[i + 1..] == name;
    }
  }

  /** `basename "$clean_url" .git`: the directory a node is cloned into. */
  function RepoName(url: string): (name: string)
    ensures '/' !in name
  {
    var base := Basename(StripGitPrefix(url));
    if EndsWith(base, ".git") then base[..|base| - 4] else base
  }

  /** Cleaning keeps the last path segment of `dir/name`. */
  lemma CleanKeepsBasename(dir: string, name: string)
    requires '/' !in name
    ensures Basename(StripGitPrefix(dir + "/" + name)) == name
  {
    var url := dir + "/" + name;
    if StartsWith(url, "git+") {
      var i := IndexOf(url, '/');
      assert url[|dir|] == '/';
      assert forall j :: 0 <= j < 4 ==> url[j] == "git+"[j] && url[j] != '/';
      assert 4 <= i <= |dir|;
      assert url[4..] == dir[4..] + "/" + name;
      BasenameOf(dir[4..], name);
    } else {
      BasenameOf(dir, name);
    }
  }

  /** The repository name is the last path segment, without its `.git` suffix. */
  lemma RepoNameOfGit(dir: string, name: string)
    requires '/' !in name
    ensures RepoName(dir + "/" + name + ".git") == name
  {
    var file := name + ".git";
    assert '/' !in file && file[..|name|] == name && EndsWith(file, ".git");
    assert dir + "/" + name + ".git" == dir + "/" + file;
    CleanKeepsBasename(dir, file);
  }

  /** A last path segment without a `.git` suffix is the repository name as it is. */
  lemma RepoNameOf(dir: string, name: string)
    requires '/' !in name && !EndsWith(name, ".git")
    ensures RepoName(dir + "/" + name) == name
  {
    CleanKeepsBasename(dir, name);
  }

  /** A `git+` marker does not change the repository name. */
  lemma RepoNameOfMarked(url: string)
    requires !StartsWith(url, "git+")
    ensures RepoName("git+" + url) == RepoName(url)
  {
    StripMarkedUrl(url);
  }

  // ------------------------------------------------------------------
  // Node URLs
  // ------------------------------------------------------------------

  /** The `url` values of the mapping nodes whose `url` is true, in order, as they are. */
  function TruthyUrls(nodes: seq<Value>): (urls: seq<Value>)
    ensures |urls| <= |nodes|
    ensures forall k :: 0 <= k < |urls| ==> Truthy(urls[k])
  {
    if nodes == [] then []
    else
      var node := nodes[|nodes| - 1];
      TruthyUrls(nodes[..|nodes| - 1]) + (if node.Map? && Truthy(Get(node, "url")) then [Get(node, "url")] else [])
  }

  /** `str()` of each value. */
  function Texts(vs: seq<Value>): (ts: seq<string>)
    ensures |ts| == |vs| && forall k :: 0 <= k < |vs| ==> ts[k] == ToStr(vs[k])
  {
    seq(|vs|, k requires 0 <= k < |vs| => ToStr(vs[k]))
  }

  /** Collecting the values and printing them is collecting the printed urls. */
  lemma {:induction false} TruthyUrlsTexts(nodes: seq<Value>)
    ensures Texts(TruthyUrls(nodes)) == NodeUrls(nodes)
    decreases |nodes|
  {
    if nodes != [] {
      var init, node := nodes[..|nodes| - 1], nodes[|nodes| - 1];
      TruthyUrlsTexts(init);
      var tail := if node.Map? && Truthy(Get(node, "url")) then [Get(node, "url")] else [];
      assert Texts(TruthyUrls(init) + tail) == Texts(TruthyUrls(init)) + Texts(tail);
    }
  }

  lemma TruthyUrlsPrefix(nodes: seq<Value>, i: nat)
    requires i < |nodes|
    ensures var node := nodes[i];
            TruthyUrls(nodes[..i + 1]) == TruthyUrls(nodes[..i]) + (if node.Map? && Truthy(Get(node, "url")) then [Get(node, "url")] else [])
  {
    assert nodes[..i + 1][..i] == nodes[..i];
  }

  /**
   * The url check of the custom-node test: every mapping node of
   * `config.get('custom_nodes', [])` whose `url` is true, its value as it is.
   */
  method ListNodeUrls(config: Value) returns (urls: seq<Value>)
    requires config.Map? && Iterable(GetOr(config, "custom_nodes", EmptyList))
    ensures urls == TruthyUrls(Iterate(GetOr(config, "custom_nodes", EmptyList)))
  {
    var nodes := Iterate(GetOr(config, "custom_nodes", EmptyList));
    urls := [];
    for i := 0 to |nodes|
      invariant urls == TruthyUrls(nodes[..i])
    {
      TruthyUrlsPrefix(nodes, i);
      var node := nodes[i];
      if node.Map? && Truthy(Get(node, "url")) {
        urls := urls + [Get(node, "url")];
      }
    }
    assert nodes[..|nodes|] == nodes;
  }

  /** `config.get('custom_nodes') or []`: the node list the export reads. */
  function ExportedNodes(config: Value): seq<Value> {
    Iterate(Or(Get(config, "custom_nodes"), EmptyList))
  }

  /** The value of `YAML_CUSTOM_NODE_URLS`: the printed urls, space-separated. */
  method ExportNodeUrls(config: Value) returns (line: string)
    requires config.Map? && IterableOrFalsy(Get(config, "custom_nodes"))
    ensures line == Join(NodeUrls(ExportedNodes(config)), " ")
  {
    var urls := CollectNodeUrls(ExportedNodes(config));
    line := Join(urls, " ");
  }

  /** A missing, empty or null `custom_nodes` exports the empty string. */
  lemma NoNodesExportNothing(config: Value)
    requires !Truthy(Get(config, "custom_nodes"))
    ensures Join(NodeUrls(ExportedNodes(config)), " ") == ""
  {
  }

  /** The shell's word splitting of the exported line gives the urls back when none holds a space. */
  lemma ExportedLineSplits(config: Value)
    requires NodeUrls(ExportedNodes(config)) != []
    requires forall u :: u in NodeUrls(ExportedNodes(config)) ==> ' ' !in u
    ensures Split(Join(NodeUrls(ExportedNodes(config)), " "), ' ') == NodeUrls(ExportedNodes(config))
  {
    SplitJoin(NodeUrls(ExportedNodes(config)), ' ');
  }

  // ------------------------------------------------------------------
  // Merging a workflow's nodes
  // ------------------------------------------------------------------

  predicate HaveUrls(nodes: seq<Value>) {
    forall k :: 0 <= k < |nodes| ==> HasKey(nodes[k], "url")
  }

  /** `[node['url'] for node in nodes]`. */
  function UrlsOf(nodes: seq<Value>): (urls: seq<Value>)
    requires HaveUrls(nodes)
    ensures |urls| == |nodes| && forall k :: 0 <= k < |nodes| ==> urls[k] == Get(nodes[k], "url")
  {
    seq(|nodes|, k requires 0 <= k < |nodes| => Get(nodes[k], "url"))
  }

  function Workflows(config: Value): seq<Value> {
    Iterate(GetOr(config, "workflows", EmptyList))
  }

  /** The nodes of a workflow: `workflow.get('custom_nodes', [])`. */
  function OwnNodes(wf: Value): seq<Value> {
    Iterate(GetOr(wf, "custom_nodes", EmptyList))
  }

  /**
   * The merge does not raise: `custom_nodes` is there and every node has a
   * `url`; the workflows are iterable, mappings up to the first one named
   * `name`, and that one's nodes all have a `url`.
   */
  predicate MergeOk(config: Value, name: string) {
    var wfs := Workflows(config);
    var i := FirstNamed(wfs, name);
    HasKey(config, "custom_nodes") && Iterable(Get(config, "custom_nodes"))
    && HaveUrls(Iterate(Get(config, "custom_nodes")))
    && Iterable(GetOr(config, "workflows", EmptyList))
    && (forall j :: 0 <= j < |wfs| && j <= i ==> wfs[j].Map?)
    && (i < |wfs| ==> Iterable(GetOr(wfs[i], "custom_nodes", EmptyList)) && HaveUrls(OwnNodes(wfs[i])))
  }

  /** The global urls, then those of the first workflow named `name` (none when no workflow is). */
  function MergedUrls(config: Value, name: string): seq<Value>
    requires MergeOk(config, name)
  {
    var wfs := Workflows(config);
    var i := FirstNamed(wfs, name);
    UrlsOf(Iterate(Get(config, "custom_nodes"))) + (if i < |wfs| then UrlsOf(OwnNodes(wfs[i])) else [])
  }

  /** The merge of the workflow test: the global urls, then the selected workflow's. */
  method MergeNodeUrls(config: Value, name: string) returns (all: seq<Value>)
    requires MergeOk(config, name)
    ensures all == MergedUrls(config, name)
  {
    var globalUrls := UrlsOf(Iterate(Get(config, "custom_nodes")));
    var workflowUrls := [];
    var wfs := Workflows(config);
    var i := 0;
    while i < |wfs|
      invariant 0 <= i <= |wfs| && i <= FirstNamed(wfs, name)
    {
      var wf := wfs[i];
      if Equal(Get(wf, "name"), Str(name)) {
        workflowUrls := UrlsOf(OwnNodes(wf));
        break;
      }
      i := i + 1;
    }
    all := globalUrls + workflowUrls;
  }

  /** All nodes are mappings whose `url` is a non-empty string. */
  predicate StringUrls(nodes: seq<Value>) {
    forall k :: 0 <= k < |nodes| ==> HasKey(nodes[k], "url") && Get(nodes[k], "url").Str? && Truthy(Get(nodes[k], "url"))
  }

  /** When every url is a non-empty string, taking them all is keeping the true ones. */
  lemma {:induction false} UrlsOfString(nodes: seq<Value>)
    requires StringUrls(nodes)
    ensures Texts(UrlsOf(nodes)) == NodeUrls(nodes)
    decreases |nodes|
  {
    if nodes != [] {
      var init := nodes[..|nodes| - 1];
      UrlsOfString(init);
      assert Texts(UrlsOf(nodes)) == Texts(UrlsOf(init)) + [ToStr(Get(nodes[|nodes| - 1], "url"))];
    }
  }

  /**
   * With string urls and a non-empty workflow name, the merged list is the
   * node-url list the YAML-processing resolver exports.
   */
  lemma MergeMatchesResolver(config: Value, name: string)
    requires MergeOk(config, name) && name != ""
    requires StringUrls(GlobalNodes(config))
    requires var wf := SelectedWorkflow(config, name); wf.Some? ==> StringUrls(OwnNodes(wf.value))
    ensures Texts(MergedUrls(config, name)) == YamlProcessing.AllNodeUrls(config, name)
  {
    var wfs := Workflows(config);
    var i := FirstNamed(wfs, name);
    var globals := UrlsOf(Iterate(Get(config, "custom_nodes")));
    var own := if i < |wfs| then UrlsOf(OwnNodes(wfs[i])) else [];
    assert Texts(globals + own) == Texts(globals) + Texts(own);
    UrlsOfString(GlobalNodes(config));
    if i < |wfs| {
      UrlsOfString(OwnNodes(wfs[i]));
    }
  }
}
