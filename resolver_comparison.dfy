/**
 * The two resolvers side by side. Both select the workflow with the same
 * loop and merge with the same code (`Manifest.Selected`, `ModelMerge.Merge`).
 * On documents whose entries are "clean" (every collected identifier free of
 * commas and surrounding blanks, every `ref` a non-empty string, every
 * category a list, distinct variable names, every
 * workflow node a plain URL) the processing step prints the header, then
 * exactly the environment the reference resolver returns, then an empty
 * `YAML_CUSTOM_NODE_URLS` line if that environment has none.
 * Where a document is not clean they differ, and each difference is shown
 * on a concrete document below.
 */
module ResolverComparison {
  import opened Wrappers
  import opened Text
  import opened Yaml
  import opened Manifest
  import opened ModelMerge
  import A = WorkflowReferences
  import AP = WorkflowReferencesProperties
  import B = YamlProcessing

  // ------------------------------------------------------------------
  // Where they agree
  // ------------------------------------------------------------------

  /**
   * An entry both resolvers read alike: the text the processing step puts
   * between commas has no comma and no surrounding blanks; a reference is
   * a non-empty string; any other entry does not look like a reference.
   */
  predicate CleanItem(item: Value, pool: seq<Value>) {
    var ps := B.ItemPart(item);
    (forall k :: 0 <= k < |ps| ==> ',' !in ps[k] && Trimmed(ps[k]))
    && if item.Map? && HasKey(item, "ref") then Get(item, "ref").Str? && Get(item, "ref").s != ""
       else forall k :: 0 <= k < |ps| ==> !StartsWith(ps[k], RefPrefix)
  }

  /** A merged category both resolvers read alike. */
  predicate CleanCategory(e: (string, Value), pools: Dict<Value>) {
    e.1.List? && forall item :: item in e.1.items ==> CleanItem(item, PoolOf(pools, e.0))
  }

  /** No two merged categories upper-case to the same variable. */
  predicate DistinctVarNames(all: Dict<Value>) {
    forall a, b :: 0 <= a < b < |all| ==> VarName(all[a].0) != VarName(all[b].0)
  }

  /** A workflow node that is a URL, neither a reference nor text that looks like one. */
  predicate PlainNode(node: Value) {
    node.Map? ==>
      (Truthy(Get(node, "url")) ==> !StartsWith(ToStr(Get(node, "url")), RefPrefix))
      && (!Truthy(Get(node, "url")) ==> !Truthy(Get(node, "ref")))
  }

  /** The resolved pieces of a concatenation are the concatenation of the resolved pieces. */
  lemma {:induction false} ResolvedPartsAppend(xs: seq<string>, ys: seq<string>, pool: seq<Value>)
    ensures B.ResolvedParts(xs + ys, pool) == B.ResolvedParts(xs, pool) + B.ResolvedParts(ys, pool)
    decreases |ys|
  {
    if ys == [] {
      assert xs + ys == xs;
    } else {
      var init := ys[..|ys| - 1];
      ResolvedPartsStep(xs, ys, pool);
      ResolvedPartsAppend(xs, init, pool);
      AppendAssociates(B.ResolvedParts(xs, pool), B.ResolvedParts(init, pool), B.ResolvedPart(ys[|ys| - 1], pool));
    }
  }

  /** Both sides of the append lemma with the last element of `ys` split off. */
  lemma ResolvedPartsStep(xs: seq<string>, ys: seq<string>, pool: seq<Value>)
    requires ys != []
    ensures var last := B.ResolvedPart(ys[|ys| - 1], pool);
            B.ResolvedParts(xs + ys, pool) == B.ResolvedParts(xs + ys[..|ys| - 1], pool) + last
            && B.ResolvedParts(ys, pool) == B.ResolvedParts(ys[..|ys| - 1], pool) + last
  {
    var init, last := ys[..|ys| - 1], ys[|ys| - 1];
    assert ys == init + [last];
    assert xs + ys == (xs + init) + [last];
    ResolvedPartsSnoc(xs + ys, xs + init, last, pool);
    ResolvedPartsSnoc(ys, init, last, pool);
  }

  lemma ResolvedPartsSnoc(zs: seq<string>, init: seq<string>, last: string, pool: seq<Value>)
    requires zs == init + [last]
    ensures B.ResolvedParts(zs, pool) == B.ResolvedParts(init, pool) + B.ResolvedPart(last, pool)
  {
    assert zs[..|zs| - 1] == init;
  }


  /**
   * For a non-empty string reference both lookups stop at the same entry:
   * an entry whose `id` is the reference has at least that `id` as locator.
   */
  lemma {:induction false} LookupsAgree(pool: seq<Value>, s: string)
    requires s != ""
    ensures B.FirstLocatedMatch(pool, s) == A.FirstIdMatch(pool, Str(s))
    decreases |pool|
  {
    if pool != [] {
      if pool[0].Map? {
        EqualStr(Get(pool[0], "id"), s);
      }
      if !A.HasIdEqual(pool[0], Str(s)) {
        LookupsAgree(pool[1..], s);
      }
    }
  }

  lemma ResolvedSingle(p: string, pool: seq<Value>)
    ensures B.ResolvedParts([p], pool) == B.ResolvedPart(p, pool)
  {
    assert [p][..0] == [];
  }

  /** A blank-free `REF:` piece resolves to the locator of the entry the lookup accepts. */
  lemma RefPieceResolves(s: string, pool: seq<Value>)
    requires Trimmed(RefPrefix + s)
    ensures var k := B.FirstLocatedMatch(pool, s);
            B.ResolvedPart(RefPrefix + s, pool) == if k < |pool| then [ToStr(Locator(pool[k]))] else []
  {
    var p := RefPrefix + s;
    assert p[..|RefPrefix|] == RefPrefix && p[|RefPrefix|..] == s;
  }

  /** A reference to a non-empty string resolves to the locator of the first entry with that `id`. */
  lemma RefItemResolves(item: Value, pool: seq<Value>)
    requires item.Map? && HasKey(item, "ref") && Get(item, "ref").Str? && Get(item, "ref").s != ""
    ensures var k := A.FirstIdMatch(pool, Get(item, "ref"));
            A.ItemLocators(item, pool) == if k < |pool| then [ToStr(Locator(pool[k]))] else []
  {
    var s := Get(item, "ref").s;
    var k := A.FirstIdMatch(pool, Str(s));
    if k < |pool| {
      EqualStr(Get(pool[k], "id"), s);
      assert Get(pool[k], "id") == Str(s);
    }
  }

  /** One clean entry resolves to the same identifiers in both. */
  lemma ItemAgrees(item: Value, pool: seq<Value>)
    requires CleanItem(item, pool)
    ensures B.ResolvedParts(B.ItemPart(item), pool) == A.ItemLocators(item, pool)
  {
    var ps := B.ItemPart(item);
    if item.Map? && HasKey(item, "ref") {
      assert ps[0] == RefPrefix + Get(item, "ref").s;
      RefAgrees(item, pool);
    } else if ps != [] {
      PlainPieceAgrees(item, pool);
    }
  }

  /** A reference to a non-empty string without surrounding blanks resolves alike in both. */
  lemma RefAgrees(item: Value, pool: seq<Value>)
    requires item.Map? && HasKey(item, "ref") && Get(item, "ref").Str? && Get(item, "ref").s != ""
    requires Trimmed(RefPrefix + Get(item, "ref").s)
    ensures B.ResolvedParts(B.ItemPart(item), pool) == A.ItemLocators(item, pool)
  {
    var s := Get(item, "ref").s;
    assert B.ItemPart(item) == [RefPrefix + s];
    ResolvedSingle(RefPrefix + s, pool);
    RefPieceResolves(s, pool);
    RefItemResolves(item, pool);
    LookupsAgree(pool, s);
  }

  /** A clean entry that is not a reference gives its one piece unchanged. */
  lemma PlainPieceAgrees(item: Value, pool: seq<Value>)
    requires CleanItem(item, pool) && !(item.Map? && HasKey(item, "ref")) && B.ItemPart(item) != []
    ensures B.ResolvedParts(B.ItemPart(item), pool) == A.ItemLocators(item, pool)
  {
    var ps := B.ItemPart(item);
    var p := ps[0];
    assert ps == [p];
    ResolvedSingle(p, pool);
    assert Trimmed(ps[0]) && !StartsWith(ps[0], RefPrefix);
    assert B.ResolvedPart(p, pool) == [p];
  }

  /** Clean entries resolve to the same identifiers in both. */
  lemma {:induction false} PartsAgree(items: seq<Value>, pool: seq<Value>)
    requires forall item :: item in items ==> CleanItem(item, pool)
    ensures B.ResolvedParts(B.Parts(items), pool) == A.Locators(items, pool)
    ensures forall k :: 0 <= k < |B.Parts(items)| ==> ',' !in B.Parts(items)[k]
    decreases |items|
  {
    if items != [] {
      var init := items[..|items| - 1];
      var last := items[|items| - 1];
      PartsAgree(init, pool);
      ResolvedPartsAppend(B.Parts(init), B.ItemPart(last), pool);
      ItemAgrees(last, pool);
    }
  }

  /** The ids of a category are non-empty strings. */
  lemma {:induction false} LocatorsNonEmpty(items: seq<Value>, pool: seq<Value>)
    ensures forall k :: 0 <= k < |A.Locators(items, pool)| ==> A.Locators(items, pool)[k] != ""
    decreases |items|
  {
    if items != [] {
      LocatorsNonEmpty(items[..|items| - 1], pool);
    }
  }

  /** With nothing extracted, `resolve_refs` walks one blank piece and resolves nothing. */
  lemma NothingResolves(pool: seq<Value>)
    ensures B.ResolvedParts(B.Pieces(None), pool) == []
  {
    assert Split("", ',') == [""];
    assert [""][..0] == [];
    assert Strip("") == "";
  }

  /** `resolve_refs` splits what `extract_ids` joined back into its comma-free parts. */
  lemma PiecesOfJoin(parts: seq<string>)
    requires parts != [] && forall k :: 0 <= k < |parts| ==> ',' !in parts[k]
    ensures B.Pieces(Some(Join(parts, ","))) == parts
  {
    assert "," == [','];
    SplitJoin(parts, ',');
  }

  /**
   * A clean category: what `resolve_refs(extract_ids(lst))` returns is the
   * reference resolver's id list joined by commas, `None` when it is empty.
   */
  lemma CategoryAgrees(e: (string, Value), pools: Dict<Value>)
    requires CleanCategory(e, pools)
    ensures var ids := A.CategoryIds(e, pools);
            B.ResolvedIds(e.0, B.ExtractedIds(e.1), pools) == if ids == [] then None else Some(Join(ids, ","))
  {
    var pool := PoolOf(pools, e.0);
    var items := e.1.items;
    var parts := B.Parts(items);
    PartsAgree(items, pool);
    assert A.CategoryIds(e, pools) == B.ResolvedParts(parts, pool);
    if parts == [] {
      assert B.ExtractedIds(e.1) == None;
      NothingResolves(pool);
    } else {
      assert B.ExtractedIds(e.1) == Some(Join(parts, ","));
      PiecesOfJoin(parts);
    }
  }

  /** One clean category adds to a dict lacking its variable exactly the line the processing step prints. */
  lemma CategoryLineAgrees(e: (string, Value), pools: Dict<Value>, prev: Dict<string>)
    requires CleanCategory(e, pools) && Find(prev, VarName(e.0)).None?
    ensures var urns := A.CategoryIds(e, pools);
            (if urns == [] then prev else Put(prev, VarName(e.0), Join(urns, ","))) == prev + B.CategoryLine(e, pools)
  {
    CategoryAgrees(e, pools);
    var urns := A.CategoryIds(e, pools);
    if urns != [] {
      LocatorsNonEmpty(e.1.items, PoolOf(pools, e.0));
      JoinNonEmpty(urns, ",");
      PutFresh(prev, VarName(e.0), Join(urns, ","));
    } else {
      assert prev + [] == prev;
    }
  }

  /** Clean categories with distinct names: the resolver's variables are exactly the processing step's lines. */
  lemma {:induction false} CategoryVarsAgree(all: Dict<Value>, pools: Dict<Value>)
    requires forall e :: e in all ==> CleanCategory(e, pools)
    requires DistinctVarNames(all)
    ensures A.CategoryVars(all, pools) == B.CategoryLines(all, pools)
    decreases |all|
  {
    if all != [] {
      var n := |all| - 1;
      var init := all[..n];
      var e := all[n];
      CleanPrefix(all, pools);
      CategoryVarsAgree(init, pools);
      AP.CategoryVarsAbsent(init, pools, VarName(e.0));
      CategoryStep(all, pools);
      CategoryLineAgrees(e, pools, A.CategoryVars(init, pools));
    }
  }

  /** The categories before the last one are clean, distinctly named, and none exports the last one's variable. */
  lemma CleanPrefix(all: Dict<Value>, pools: Dict<Value>)
    requires all != []
    requires forall e :: e in all ==> CleanCategory(e, pools)
    requires DistinctVarNames(all)
    ensures var n := |all| - 1;
            (forall e :: e in all[..n] ==> CleanCategory(e, pools)) && DistinctVarNames(all[..n])
            && (forall j :: 0 <= j < n ==> !AP.Exports(all[..n][j], pools, VarName(all[n].0)))
            && CleanCategory(all[n], pools)
  {
    var n := |all| - 1;
    var init := all[..n];
    assert forall j :: 0 <= j < n ==> init[j] == all[j];
  }

  /** Both category loops with the last category split off. */
  lemma CategoryStep(all: Dict<Value>, pools: Dict<Value>)
    requires all != []
    ensures var n := |all| - 1;
            var prev := A.CategoryVars(all[..n], pools);
            var urns := A.CategoryIds(all[n], pools);
            A.CategoryVars(all, pools) == (if urns == [] then prev else Put(prev, VarName(all[n].0), Join(urns, ",")))
            && B.CategoryLines(all, pools) == B.CategoryLines(all[..n], pools) + B.CategoryLine(all[n], pools)
  {
  }

  lemma {:induction false} ResolvedNodesAppend(xs: seq<string>, ys: seq<string>, index: map<Value, Value>)
    ensures A.ResolvedNodes(xs + ys, index) == A.ResolvedNodes(xs, index) + A.ResolvedNodes(ys, index)
    decreases |ys|
  {
    if ys == [] {
      assert xs + ys == xs;
    } else {
      var init := ys[..|ys| - 1];
      ResolvedNodesStep(xs, ys, index);
      ResolvedNodesAppend(xs, init, index);
      AppendAssociates(A.ResolvedNodes(xs, index), A.ResolvedNodes(init, index), A.ResolvedNode(ys[|ys| - 1], index));
    }
  }

  /** Both sides of the append lemma with the last element of `ys` split off. */
  lemma ResolvedNodesStep(xs: seq<string>, ys: seq<string>, index: map<Value, Value>)
    requires ys != []
    ensures var last := A.ResolvedNode(ys[|ys| - 1], index);
            A.ResolvedNodes(xs + ys, index) == A.ResolvedNodes(xs + ys[..|ys| - 1], index) + last
            && A.ResolvedNodes(ys, index) == A.ResolvedNodes(ys[..|ys| - 1], index) + last
  {
    var init, last := ys[..|ys| - 1], ys[|ys| - 1];
    assert ys == init + [last];
    assert xs + ys == (xs + init) + [last];
    ResolvedNodesSnoc(xs + ys, xs + init, last, index);
    ResolvedNodesSnoc(ys, init, last, index);
  }

  lemma ResolvedNodesSnoc(zs: seq<string>, init: seq<string>, last: string, index: map<Value, Value>)
    requires zs == init + [last]
    ensures A.ResolvedNodes(zs, index) == A.ResolvedNodes(init, index) + A.ResolvedNode(last, index)
  {
    assert zs[..|zs| - 1] == init;
  }


  /** Plain workflow nodes give the same URLs in both. */
  lemma {:induction false} NodesAgree(nodes: seq<Value>, index: map<Value, Value>)
    requires forall node :: node in nodes ==> PlainNode(node)
    ensures A.ResolvedNodes(A.NodeEntries(nodes), index) == NodeUrls(nodes)
    decreases |nodes|
  {
    if nodes != [] {
      var init := nodes[..|nodes| - 1];
      var last := nodes[|nodes| - 1];
      NodesAgree(init, index);
      ResolvedNodesAppend(A.NodeEntries(init), A.NodeEntry(last), index);
      assert PlainNode(last);
      if last.Map? && Truthy(Get(last, "url")) {
        var u := ToStr(Get(last, "url"));
        assert A.NodeEntry(last) == [u];
        assert A.ResolvedNodes([u], index) == [u] by {
          assert [u][..0] == [];
        }
      } else {
        assert A.NodeEntry(last) == [];
      }
    }
  }

  /** The environment of clean categories plus the node variable, against the printed lines. */
  lemma OutputsAgree(all: Dict<Value>, pools: Dict<Value>, urls: seq<string>)
    requires forall e :: e in all ==> CleanCategory(e, pools)
    requires DistinctVarNames(all)
    ensures var env := A.CategoryVars(all, pools);
            B.CategoryLines(all, pools) + [(NodeUrlsVar, Join(urls, " "))]
            == (if urls == [] then env else Put(env, NodeUrlsVar, Join(urls, " ")))
               + (if urls == [] then [(NodeUrlsVar, "")] else [])
  {
    CategoryVarsAgree(all, pools);
    if urls != [] {
      forall j | 0 <= j < |all| {
        NodeUrlsVarIsNoCategory(all[j].0);
      }
      AP.CategoryVarsAbsent(all, pools, NodeUrlsVar);
      PutFresh(A.CategoryVars(all, pools), NodeUrlsVar, Join(urls, " "));
    }
  }

  /** The reference resolver's environment, spelled out for a merged model list. */
  lemma EnvOf(root: Value, selected: string)
    requires A.Processable(root, selected)
    ensures var models := Models(root);
            var env := A.CategoryVars(Merge(models, WorkflowModels(root, selected)).value, Pools(models, |models|));
            var urls := A.AllNodeUrls(root, selected);
            A.Process(root, selected) == if urls == [] then env else Put(env, NodeUrlsVar, Join(urls, " "))
  {
  }

  /** The processing step's standard output, spelled out for a mapping document. */
  lemma StdoutOf(root: Value, selected: string)
    requires root.Map? && B.Processable(root, selected)
    ensures var models := Models(root);
            var lines := B.CategoryLines(Merge(models, WorkflowModels(root, selected)).value, Pools(models, |models|));
            B.Process(root, selected).stdout
              == B.Header(root) + (lines + [(NodeUrlsVar, Join(B.AllNodeUrls(root, selected), " "))])
  {
    assert B.Data(root) == root;
  }

  /**
   * On a clean document that both run on, the processing step prints its
   * header, then the reference resolver's environment in order, then an
   * empty `YAML_CUSTOM_NODE_URLS` line exactly when that environment has
   * no such variable.
   */
  lemma ResolversAgree(root: Value, selected: string)
    requires root.Map? && A.Processable(root, selected) && B.Processable(root, selected)
    requires var all := Merge(Models(root), WorkflowModels(root, selected)).value;
             (forall e :: e in all ==> CleanCategory(e, Pools(Models(root), |Models(root)|))) && DistinctVarNames(all)
    requires forall node :: node in WorkflowNodes(root, selected) ==> PlainNode(node)
    ensures B.Process(root, selected).stdout ==
              B.Header(root) + A.Process(root, selected)
              + (if A.AllNodeUrls(root, selected) == [] then [(NodeUrlsVar, "")] else [])
  {
    var models := Models(root);
    var pools := Pools(models, |models|);
    var all := Merge(models, WorkflowModels(root, selected)).value;
    NodesAgree(WorkflowNodes(root, selected), A.NodeIndex(GlobalNodes(root)));
    var urls := A.AllNodeUrls(root, selected);
    assert urls == B.AllNodeUrls(root, selected);
    OutputsAgree(all, pools, urls);
    EnvOf(root, selected);
    StdoutOf(root, selected);
    var a := A.Process(root, selected);
    var tail := if urls == [] then [(NodeUrlsVar, "")] else [];
    assert B.Process(root, selected).stdout == B.Header(root) + (a + tail);
    AppendAssociates(B.Header(root), a, tail);
  }

  // ------------------------------------------------------------------
  // Where they differ
  // ------------------------------------------------------------------

  /** A category of one entry: its ids are that entry's. */
  lemma SingleItemLocators(item: Value, pool: seq<Value>)
    ensures A.Locators([item], pool) == A.ItemLocators(item, pool)
  {
    assert [item][..0] == [];
  }

  lemma SingleItemParts(item: Value)
    ensures B.Parts([item]) == B.ItemPart(item)
  {
    assert [item][..0] == [];
  }

  /** A pool of `pools` for a one-category dict. */
  lemma SinglePool(cat: string, pool: seq<Value>)
    ensures PoolOf([(cat, List(pool))], cat) == pool
  {
    KeyIndexIs([(cat, List(pool))], cat, 0);
  }

  /**
   * An empty reference: the first global entry with that (empty) `id` has no
   * locator, a later one does. The reference resolver stops at the first and
   * finds nothing; the processing step passes over it and takes the later one.
   */
  lemma FirstMatchWithoutLocator()
    ensures var first := Map([("id", Str(""))]);
            var later := Map([("id", Str("")), ("urn", Str("u"))]);
            var item := Map([("ref", Str(""))]);
            var pools := [("loras", List([first, later]))];
            A.CategoryIds(("loras", List([item])), pools) == []
            && B.ResolvedIds("loras", B.ExtractedIds(List([item])), pools) == Some("u")
  {
    var first := Map([("id", Str(""))]);
    var later := Map([("id", Str("")), ("urn", Str("u"))]);
    var item := Map([("ref", Str(""))]);
    var pool := [first, later];
    SinglePool("loras", pool);
    FirstMatchStopsA(first, later, item);
    FirstMatchSkippedB(first, later, item);
  }

  lemma FirstMatchStopsA(first: Value, later: Value, item: Value)
    requires first == Map([("id", Str(""))]) && item == Map([("ref", Str(""))])
    ensures A.Locators([item], [first, later]) == []
  {
    SingleItemLocators(item, [first, later]);
    assert Get(item, "ref") == Str("");
    assert Get(first, "id") == Str("") && !Truthy(Locator(first));
    assert A.FirstIdMatch([first, later], Str("")) == 0;
  }

  /** An entry `{ref: ""}` is extracted as the bare marker. */
  lemma EmptyRefExtracted(item: Value)
    requires item == Map([("ref", Str(""))])
    ensures B.ExtractedIds(List([item])) == Some(RefPrefix)
  {
    SingleItemParts(item);
    assert HasKey(item, "ref") && Get(item, "ref") == Str("");
    assert B.ItemPart(item) == [RefPrefix + ""];
    assert RefPrefix + "" == RefPrefix;
  }

  /** The bare marker is one piece, a reference to the empty `id`. */
  lemma BareMarkerResolves(pool: seq<Value>)
    ensures var k := B.FirstLocatedMatch(pool, "");
            B.ResolvedParts(B.Pieces(Some(RefPrefix)), pool) == if k < |pool| then [ToStr(Locator(pool[k]))] else []
  {
    MarkerPiece();
    ResolvedSingle(RefPrefix, pool);
    assert RefPrefix + "" == RefPrefix;
    MarkerTrimmed();
    RefPieceResolves("", pool);
  }

  /** The bare marker is a single piece. */
  lemma MarkerPiece()
    ensures B.Pieces(Some(RefPrefix)) == [RefPrefix]
  {
    assert ',' !in RefPrefix by {
      assert RefPrefix == ['R', 'E', 'F', ':'];
    }
    PiecesOfJoin([RefPrefix]);
  }

  lemma MarkerTrimmed()
    ensures Trimmed(RefPrefix)
  {
    assert RefPrefix[0] == 'R' && RefPrefix[|RefPrefix| - 1] == ':';
  }

  lemma FirstMatchSkippedB(first: Value, later: Value, item: Value)
    requires first == Map([("id", Str(""))]) && later == Map([("id", Str("")), ("urn", Str("u"))])
    requires item == Map([("ref", Str(""))])
    ensures var ids := B.ExtractedIds(List([item]));
            ids == Some(RefPrefix) && B.ResolvedParts(B.Pieces(ids), [first, later]) == ["u"]
  {
    EmptyRefExtracted(item);
    BareMarkerResolves([first, later]);
    SkipsFirst(first, later);
  }

  lemma SkipsFirst(first: Value, later: Value)
    requires first == Map([("id", Str(""))]) && later == Map([("id", Str("")), ("urn", Str("u"))])
    ensures B.FirstLocatedMatch([first, later], "") == 1 && Locator(later) == Str("u")
  {
    assert !Truthy(Locator(first));
    assert Get(later, "id") == Str("") && Get(later, "urn") == Str("u");
    assert B.LocatedMatch(later, "");
    assert [first, later][1..] == [later];
  }

  /**
   * A workflow node given by `ref` to a global node: the reference resolver
   * puts that node's url in the list, the processing step drops the node.
   */
  lemma NodeRefsDiffer(r: string, u: string)
    requires r != "" && u != ""
    ensures var w := Map([("ref", Str(r))]);
            var g := Map([("id", Str(r)), ("url", Str(u))]);
            A.ResolvedNodes(A.NodeEntries([w]), A.NodeIndex([g])) == [u]
            && NodeUrls([w]) == []
  {
    var w := Map([("ref", Str(r))]);
    var g := Map([("id", Str(r)), ("url", Str(u))]);
    RefNode(w, r);
    IndexedNode(g, r, u);
    RefEntryResolves(r, g, u);
  }

  /** A node `{ref: r}` is recorded as `REF:r` and has no url of its own. */
  lemma RefNode(w: Value, r: string)
    requires w == Map([("ref", Str(r))]) && r != ""
    ensures A.NodeEntries([w]) == [RefPrefix + r] && NodeUrls([w]) == []
  {
    OneEntry(w, "ref", Str(r), "url");
    assert [w][..0] == [];
  }

  /** A node `{id: r, url: u}` is the only one indexed, under `r`. */
  lemma IndexedNode(g: Value, r: string, u: string)
    requires g == Map([("id", Str(r)), ("url", Str(u))]) && r != ""
    ensures A.NodeIndex([g]) == map[Str(r) := g] && Get(g, "url") == Str(u)
  {
    TwoEntries(g, "id", Str(r), "url", Str(u));
    assert [g][..0] == [];
  }

  /** The entry `REF:r` becomes the url of the node indexed under `r`. */
  lemma RefEntryResolves(r: string, g: Value, u: string)
    requires Get(g, "url") == Str(u) && u != ""
    ensures A.ResolvedNodes([RefPrefix + r], map[Str(r) := g]) == [u]
  {
    var entry := RefPrefix + r;
    var entries: seq<string> := [entry];
    assert entries[..0] == [];
    assert entry[..|RefPrefix|] == RefPrefix && entry[|RefPrefix|..] == r;
  }

  /**
   * A reference no global entry has: the reference resolver drops it
   * silently, the processing step drops it and prints a warning.
   */
  lemma MissingRefWarns(cat: string, r: string)
    requires r != "" && Trimmed(r) && ',' !in r
    ensures var item := Map([("ref", Str(r))]);
            var pools := [(cat, List([]))];
            A.CategoryIds((cat, List([item])), pools) == []
            && B.ResolvedIds(cat, B.ExtractedIds(List([item])), pools) == None
            && B.RefWarnings(cat, B.ExtractedIds(List([item])), pools) == ["WARNING_REF_NOT_FOUND:" + r + ":" + cat]
  {
    var item := Map([("ref", Str(r))]);
    SinglePool(cat, []);
    MissingRefA(item, r);
    var p := RefExtracted(item, r);
    MissingPiece(cat, r, p);
  }

  /** With an empty pool an entry `{ref: r}` contributes nothing to the reference resolver. */
  lemma MissingRefA(item: Value, r: string)
    requires item == Map([("ref", Str(r))])
    ensures A.Locators([item], []) == []
  {
    SingleItemLocators(item, []);
    OneEntry(item, "ref", Str(r), "url");
  }

  /** An entry `{ref: r}` is extracted as the one piece `REF:r`. */
  lemma RefExtracted(item: Value, r: string) returns (p: string)
    requires item == Map([("ref", Str(r))]) && ',' !in r
    ensures p == RefPrefix + r && B.ExtractedIds(List([item])) == Some(p) && B.Pieces(Some(p)) == [p]
  {
    SingleItemParts(item);
    OneEntry(item, "ref", Str(r), "url");
    p := RefPrefix + r;
    assert B.ItemPart(item) == [p];
    assert ',' !in p by {
      assert forall k :: 0 <= k < |p| ==> p[k] == if k < |RefPrefix| then RefPrefix[k] else r[k - |RefPrefix|];
    }
    PiecesOfJoin([p]);
  }

  /** The piece `REF:r` against an empty pool: no id, one warning. */
  lemma MissingPiece(cat: string, r: string, p: string)
    requires r != "" && Trimmed(r) && p == RefPrefix + r
    ensures B.ResolvedParts([p], []) == [] && B.PartWarnings(cat, [p], []) == ["WARNING_REF_NOT_FOUND:" + r + ":" + cat]
  {
    assert Trimmed(p);
    ResolvedSingle(p, []);
    RefPieceResolves(r, []);
    assert p[..|RefPrefix|] == RefPrefix && p[|RefPrefix|..] == r;
    MissingPieceWarns(cat, p);
  }

  lemma MissingPieceWarns(cat: string, p: string)
    requires Trimmed(p) && StartsWith(p, RefPrefix)
    ensures B.PartWarnings(cat, [p], []) == ["WARNING_REF_NOT_FOUND:" + p[|RefPrefix|..] + ":" + cat]
  {
    var ps: seq<string> := [p];
    assert ps[..0] == [];
    assert B.PartWarnings(cat, ps, []) == B.PartWarning(cat, p, []);
  }

  /**
   * The empty document: the reference resolver returns no variable at all
   * (and fails outright on a document that loads as `None`); the processing
   * step prints `CPU_ONLY=1` and an empty `YAML_CUSTOM_NODE_URLS`.
   */
  lemma EmptyDocumentsDiffer()
    ensures A.Processable(EmptyMap, "") && A.Process(EmptyMap, "") == []
    ensures B.Processable(EmptyMap, "")
            && B.Process(EmptyMap, "") == B.Output([("CPU_ONLY", "1"), (NodeUrlsVar, "")], [])
    ensures !A.Processable(Null, "") && B.Processable(Null, "")
  {
    EmptyDocumentA();
    EmptyDocumentB();
    assert B.Data(Null) == EmptyMap;
  }

  lemma EmptyDocumentA()
    ensures A.Processable(EmptyMap, "") && A.Process(EmptyMap, "") == []
  {
    assert Models(EmptyMap) == [] && GlobalNodes(EmptyMap) == [];
    assert Pools([], 0) == [] && Merge([], []) == Some([]);
  }

  lemma EmptyDocumentB()
    ensures B.Processable(EmptyMap, "")
            && B.Process(EmptyMap, "") == B.Output([("CPU_ONLY", "1"), (NodeUrlsVar, "")], [])
  {
    assert Models(EmptyMap) == [] && GlobalNodes(EmptyMap) == [];
    assert Pools([], 0) == [] && Merge([], []) == Some([]);
    assert B.Header(EmptyMap) == [("CPU_ONLY", "1")];
  }

  /**
   * A category whose value is a string: the reference resolver iterates
   * over its characters, the processing step prints no line for it.
   */
  lemma StringCategoryDiffers(cat: string, pools: Dict<Value>)
    ensures A.CategoryIds((cat, Str("ab")), pools) == ["a", "b"]
    ensures B.CategoryLine((cat, Str("ab")), pools) == []
  {
    StringItemsA(PoolOf(pools, cat));
    StringCategoryB(cat, "ab", pools);
  }

  /** The reference resolver takes the characters of `"ab"` as two ids. */
  lemma StringItemsA(pool: seq<Value>)
    ensures A.Locators(Iterate(Str("ab")), pool) == ["a", "b"]
  {
    var xs := Iterate(Str("ab"));
    var init := [Str("a")];
    assert xs == init + [Str("b")];
    assert xs[..1] == init && init[..0] == [];
    assert A.ItemLocators(Str("a"), pool) == ["a"];
    assert A.Locators(init, pool) == ["a"];
    assert A.ItemLocators(Str("b"), pool) == ["b"];
    assert A.Locators(xs, pool) == A.Locators(init, pool) + ["b"];
  }

  /** The processing step extracts nothing from a string, so prints no line. */
  lemma StringCategoryB(cat: string, s: string, pools: Dict<Value>)
    ensures B.CategoryLine((cat, Str(s)), pools) == []
  {
    assert B.ExtractedIds(Str(s)) == None;
    NothingResolves(PoolOf(pools, cat));
  }

  /**
   * A reference that is a number: the reference resolver compares it with
   * the `id` as a number and finds the entry; the processing step compares
   * its text with the `id` and does not.
   */
  lemma NumericRefDiffers(cat: string, n: nat, u: string)
    requires u != ""
    ensures var item := Map([("ref", Int(n))]);
            var pools := [(cat, List([Map([("id", Int(n)), ("urn", Str(u))])]))];
            A.CategoryIds((cat, List([item])), pools) == [u]
            && B.ResolvedIds(cat, B.ExtractedIds(List([item])), pools) == None
  {
    var item := Map([("ref", Int(n))]);
    var g := Map([("id", Int(n)), ("urn", Str(u))]);
    SinglePool(cat, [g]);
    NumericRefA(item, g, n, u);
    NumericRefB(item, g, n, u);
  }

  lemma NumericRefA(item: Value, g: Value, n: nat, u: string)
    requires item == Map([("ref", Int(n))]) && g == Map([("id", Int(n)), ("urn", Str(u))]) && u != ""
    ensures A.Locators([item], [g]) == [u]
  {
    SingleItemLocators(item, [g]);
    OneEntry(item, "ref", Int(n), "url");
    TwoEntries(g, "id", Int(n), "urn", Str(u));
    assert Locator(g) == Str(u);
    assert A.FirstIdMatch([g], Int(n)) == 0;
  }

  lemma NumericRefB(item: Value, g: Value, n: nat, u: string)
    requires item == Map([("ref", Int(n))]) && g == Map([("id", Int(n)), ("urn", Str(u))])
    ensures B.ResolvedParts(B.Pieces(B.ExtractedIds(List([item]))), [g]) == []
  {
    SingleItemParts(item);
    OneEntry(item, "ref", Int(n), "url");
    var p := NumberPiece(n);
    assert B.ItemPart(item) == [p];
    PiecesOfJoin([p]);
    ResolvedSingle(p, [g]);
    RefPieceResolves(ToStr(Int(n)), [g]);
    TwoEntries(g, "id", Int(n), "urn", Str(u));
    assert !B.LocatedMatch(g, ToStr(Int(n)));
    assert [g][1..] == [];
  }

  /** `REF:` followed by a number's digits: no comma in it and no blank at either end. */
  lemma NumberPiece(n: nat) returns (p: string)
    ensures p == RefPrefix + ToStr(Int(n)) && ',' !in p && Trimmed(p)
  {
    var s := NatToString(n);
    assert ToStr(Int(n)) == s;
    p := RefPrefix + s;
    assert RefPrefix == ['R', 'E', 'F', ':'];
    assert forall k :: 0 <= k < |p| ==> p[k] == if k < 4 then RefPrefix[k] else s[k - 4];
    assert p[|p| - 1] == s[|s| - 1];
  }
}
