/**
 * What the workflow-reference resolver guarantees: a merged category lists
 * the global identifiers first and the workflow's after them, duplicates
 * kept; each `CIVITAI_*` variable comes from the last category that exports
 * it; the node index keeps the last node with an `id`; the node variable is
 * present exactly when there is a URL to put in it and never clobbers a
 * category variable; an unknown workflow name behaves like no selection.
 */
module WorkflowReferencesProperties {
  import opened Wrappers
  import opened Text
  import opened Yaml
  import opened Manifest
  import opened ModelMerge
  import opened WorkflowReferences

  /** The id list of a concatenation is the concatenation of the id lists. */
  lemma {:induction false} LocatorsAppend(xs: seq<Value>, ys: seq<Value>, pool: seq<Value>)
    ensures Locators(xs + ys, pool) == Locators(xs, pool) + Locators(ys, pool)
    decreases |ys|
  {
    if ys == [] {
      assert xs + ys == xs;
    } else {
      var init := ys[..|ys| - 1];
      LocatorsStep(xs, ys, pool);
      LocatorsAppend(xs, init, pool);
      AppendAssociates(Locators(xs, pool), Locators(init, pool), ItemLocators(ys[|ys| - 1], pool));
    }
  }

  /** Both sides of the append lemma with the last entry of `ys` split off. */
  lemma LocatorsStep(xs: seq<Value>, ys: seq<Value>, pool: seq<Value>)
    requires ys != []
    ensures var last := ItemLocators(ys[|ys| - 1], pool);
            Locators(xs + ys, pool) == Locators(xs + ys[..|ys| - 1], pool) + last
            && Locators(ys, pool) == Locators(ys[..|ys| - 1], pool) + last
  {
    var init, last := ys[..|ys| - 1], ys[|ys| - 1];
    assert ys == init + [last];
    assert xs + ys == (xs + init) + [last];
    LocatorsSnoc(xs + ys, xs + init, last, pool);
    LocatorsSnoc(ys, init, last, pool);
  }

  lemma LocatorsSnoc(zs: seq<Value>, init: seq<Value>, last: Value, pool: seq<Value>)
    requires zs == init + [last]
    ensures Locators(zs, pool) == Locators(init, pool) + ItemLocators(last, pool)
  {
    assert zs[..|zs| - 1] == init;
  }

  /**
   * A category listed both globally and by the selected workflow resolves
   * to the global identifiers followed by the workflow's, without removing
   * duplicates; `ref:` entries on either side look up the global pool.
   */
  lemma MergedCategoryIds(root: Value, selected: string, i: nat, j: nat)
    requires Processable(root, selected)
    requires var models := Models(root); var wf := WorkflowModels(root, selected);
             i < |models| && j < |wf| && models[i].0 == wf[j].0 && models[i].0 !in PathKeys
             && models[i].1.List? && wf[j].1.List?
    ensures var models := Models(root); var wf := WorkflowModels(root, selected);
            var cat := models[i].0;
            var pools := Pools(models, |models|);
            var all := Merge(models, wf).value;
            Find(all, cat).Some?
            && CategoryIds((cat, Find(all, cat).value), pools)
               == Locators(Or(models[i].1, EmptyList).items, PoolOf(pools, cat))
                  + Locators(Or(wf[j].1, EmptyList).items, PoolOf(pools, cat))
  {
    var models := Models(root);
    var wf := WorkflowModels(root, selected);
    var sel := SelectedWorkflow(root, selected);
    assert DistinctKeys(wf) by {
      if sel.Some? {
        assert wf == GetOr(sel.value, "models", EmptyMap).entries;
      }
    }
    MergeConcatenates(models, wf, i, j);
    var cat := models[i].0;
    LocatorsAppend(Or(models[i].1, EmptyList).items, Or(wf[j].1, EmptyList).items,
                   PoolOf(Pools(models, |models|), cat));
  }

  /** Every key the category loop sets is a `CIVITAI_` variable. */
  lemma {:induction false} CategoryVarsNames(all: Dict<Value>, pools: Dict<Value>)
    ensures forall k :: k in KeysOf(CategoryVars(all, pools)) ==> StartsWith(k, "CIVITAI_")
    decreases |all|
  {
    if all != [] {
      var prev := CategoryVars(all[..|all| - 1], pools);
      CategoryVarsNames(all[..|all| - 1], pools);
      var urns := CategoryIds(all[|all| - 1], pools);
      if urns != [] {
        PutKeys(prev, VarName(all[|all| - 1].0), Join(urns, ","));
      }
    }
  }

  /** Category `e` sets variable `name`. */
  predicate Exports(e: (string, Value), pools: Dict<Value>, name: string) {
    VarName(e.0) == name && CategoryIds(e, pools) != []
  }

  /** The category loop up to the last entry, then that entry. */
  lemma CategoryVarsStep(all: Dict<Value>, pools: Dict<Value>, name: string)
    requires all != []
    ensures Exports(all[|all| - 1], pools, name) ==>
              Find(CategoryVars(all, pools), name) == Some(Join(CategoryIds(all[|all| - 1], pools), ","))
    ensures !Exports(all[|all| - 1], pools, name) ==>
              Find(CategoryVars(all, pools), name) == Find(CategoryVars(all[..|all| - 1], pools), name)
  {
    var n := |all| - 1;
    var urns := CategoryIds(all[n], pools);
    if urns != [] {
      PutFind(CategoryVars(all[..n], pools), VarName(all[n].0), Join(urns, ","), name);
    }
  }

  /** A `CIVITAI_*` variable no category exports is not set. */
  lemma {:induction false} CategoryVarsAbsent(all: Dict<Value>, pools: Dict<Value>, name: string)
    requires forall j :: 0 <= j < |all| ==> !Exports(all[j], pools, name)
    ensures Find(CategoryVars(all, pools), name).None?
    decreases |all|
  {
    if all != [] {
      var n := |all| - 1;
      var init := all[..n];
      assert forall j :: 0 <= j < n ==> init[j] == all[j];
      CategoryVarsAbsent(init, pools, name);
      CategoryVarsStep(all, pools, name);
    }
  }

  /** The assignments the category loop makes, in order: each variable with the ids it is given. */
  function Exported(all: Dict<Value>, pools: Dict<Value>): seq<(string, seq<string>)> {
    seq(|all|, j requires 0 <= j < |all| => (VarName(all[j].0), CategoryIds(all[j], pools)))
  }

  /** The dict those assignments build: a variable is set when its id list is non-empty. */
  function Assigned(xs: seq<(string, seq<string>)>): Dict<string> {
    if xs == [] then []
    else
      var prev := Assigned(xs[..|xs| - 1]);
      var x := xs[|xs| - 1];
      if x.1 == [] then prev else Put(prev, x.0, Join(x.1, ","))
  }

  /** The category loop is that dict. */
  lemma {:induction false} AssignedCategoryVars(all: Dict<Value>, pools: Dict<Value>)
    ensures Assigned(Exported(all, pools)) == CategoryVars(all, pools)
    decreases |all|
  {
    if all != [] {
      var n := |all| - 1;
      var xs := Exported(all, pools);
      assert xs[..n] == Exported(all[..n], pools);
      AssignedCategoryVars(all[..n], pools);
    }
  }

  /** The last assignment sets its variable, if its ids are non-empty, and leaves the others alone. */
  lemma AssignedStep(xs: seq<(string, seq<string>)>, name: string)
    requires xs != []
    ensures var x := xs[|xs| - 1];
            Find(Assigned(xs), name) ==
              if x.0 == name && x.1 != [] then Some(Join(x.1, ",")) else Find(Assigned(xs[..|xs| - 1]), name)
  {
    var x := xs[|xs| - 1];
    if x.1 != [] {
      PutFind(Assigned(xs[..|xs| - 1]), x.0, Join(x.1, ","), name);
    }
  }

  lemma {:induction false} AssignedPresent(xs: seq<(string, seq<string>)>, name: string, j: nat)
    requires j < |xs| && xs[j].0 == name && xs[j].1 != []
    ensures Find(Assigned(xs), name).Some?
    decreases |xs|
  {
    var n := |xs| - 1;
    AssignedStep(xs, name);
    if j < n && !(xs[n].0 == name && xs[n].1 != []) {
      assert xs[..n][j] == xs[j];
      AssignedPresent(xs[..n], name, j);
    }
  }

  lemma {:induction false} AssignedLast(xs: seq<(string, seq<string>)>, name: string, j: nat)
    requires j < |xs| && xs[j].0 == name && xs[j].1 != []
    requires forall j' :: j < j' < |xs| ==> xs[j'].0 != name || xs[j'].1 == []
    ensures Find(Assigned(xs), name) == Some(Join(xs[j].1, ","))
    decreases |xs|
  {
    var n := |xs| - 1;
    AssignedStep(xs, name);
    if j < n {
      var init := xs[..n];
      assert init[j] == xs[j];
      assert forall j' :: j < j' < n ==> init[j'] == xs[j'];
      AssignedLast(init, name, j);
    }
  }

  /** A `CIVITAI_*` variable some category exports is set. */
  lemma CategoryVarsPresent(all: Dict<Value>, pools: Dict<Value>, name: string, j: nat)
    requires j < |all| && Exports(all[j], pools, name)
    ensures Find(CategoryVars(all, pools), name).Some?
  {
    AssignedCategoryVars(all, pools);
    AssignedPresent(Exported(all, pools), name, j);
  }

  /** The variable then holds the identifiers of the last such category, joined by commas. */
  lemma CategoryVarsLast(all: Dict<Value>, pools: Dict<Value>, name: string, j: nat)
    requires j < |all| && Exports(all[j], pools, name)
    requires forall j' :: j < j' < |all| ==> !Exports(all[j'], pools, name)
    ensures Find(CategoryVars(all, pools), name) == Some(Join(CategoryIds(all[j], pools), ","))
  {
    var xs := Exported(all, pools);
    AssignedCategoryVars(all, pools);
    assert forall j' :: j < j' < |xs| ==> xs[j'].0 != name || xs[j'].1 == [] by {
      assert forall j' :: j < j' < |xs| ==> xs[j'] == (VarName(all[j'].0), CategoryIds(all[j'], pools));
    }
    AssignedLast(xs, name, j);
  }

  /** Node `node` is indexed under `r`. */
  predicate IdIs(node: Value, r: Value) {
    HasNodeId(node) && Canonical(Get(node, "id")) == r
  }

  /**
   * A key is in the node index exactly when some node has that `id`, and it
   * then holds the last node with it.
   */
  lemma {:induction false} NodeIndexLookup(nodes: seq<Value>, r: Value)
    ensures (exists j :: 0 <= j < |nodes| && IdIs(nodes[j], r)) <==> r in NodeIndex(nodes)
    ensures forall j :: (0 <= j < |nodes| && IdIs(nodes[j], r)
                         && forall j' :: j < j' < |nodes| ==> !IdIs(nodes[j'], r)) ==>
              r in NodeIndex(nodes) && NodeIndex(nodes)[r] == nodes[j]
    decreases |nodes|
  {
    if nodes != [] {
      var n := |nodes| - 1;
      var init := nodes[..n];
      NodeIndexLookup(init, r);
      assert forall j :: 0 <= j < n ==> init[j] == nodes[j];
      if IdIs(nodes[n], r) {
        assert r in NodeIndex(nodes);
      }
    }
  }

  /**
   * `YAML_CUSTOM_NODE_URLS` is present exactly when there is a node URL,
   * holding all of them joined by spaces, and setting it leaves every
   * `CIVITAI_*` variable as the category loop left it.
   */
  lemma NodeUrlsVarSet(root: Value, selected: string)
    requires Processable(root, selected)
    ensures var urls := AllNodeUrls(root, selected);
            Find(Process(root, selected), NodeUrlsVar) == if urls == [] then None else Some(Join(urls, " "))
    ensures var models := Models(root);
            var env := CategoryVars(Merge(models, WorkflowModels(root, selected)).value, Pools(models, |models|));
            forall cat :: Find(Process(root, selected), VarName(cat)) == Find(env, VarName(cat))
  {
    var models := Models(root);
    var env := CategoryVars(Merge(models, WorkflowModels(root, selected)).value, Pools(models, |models|));
    var urls := AllNodeUrls(root, selected);
    CategoryVarsNames(Merge(models, WorkflowModels(root, selected)).value, Pools(models, |models|));
    assert !StartsWith(NodeUrlsVar, "CIVITAI_") by {
      assert NodeUrlsVar[0] == 'Y';
    }
    assert Find(env, NodeUrlsVar).None?;
    if urls != [] {
      forall cat {
        PutFind(env, NodeUrlsVar, Join(urls, " "), VarName(cat));
      }
      PutFind(env, NodeUrlsVar, Join(urls, " "), NodeUrlsVar);
    }
  }

  /** Naming a workflow that does not exist gives the same environment as naming none. */
  lemma UnknownWorkflowIsNoSelection(root: Value, selected: string)
    requires Processable(root, selected) && SelectedWorkflow(root, selected).None?
    ensures Processable(root, "") && Process(root, selected) == Process(root, "")
  {
    assert WorkflowModels(root, selected) == [] == WorkflowModels(root, "");
    assert WorkflowNodes(root, selected) == [] == WorkflowNodes(root, "");
  }

  /** A workflow node reference to a global node with a true `url` resolves to that url. */
  lemma NodeRefResolves(root: Value, r: string, j: nat)
    requires var globals := GlobalNodes(root);
             j < |globals| && IdIs(globals[j], Str(r)) && Truthy(Get(globals[j], "url"))
             && forall j' :: j < j' < |globals| ==> !IdIs(globals[j'], Str(r))
    ensures ResolvedNode(RefPrefix + r, NodeIndex(GlobalNodes(root))) == [ToStr(Get(GlobalNodes(root)[j], "url"))]
  {
    NodeIndexLookup(GlobalNodes(root), Str(r));
    assert (RefPrefix + r)[|RefPrefix|..] == r;
  }

  /** A workflow node reference to an `id` no global node has is dropped without a trace. */
  lemma NodeRefMissingDropped(root: Value, r: string)
    requires forall node :: node in GlobalNodes(root) ==> !IdIs(node, Str(r))
    ensures ResolvedNode(RefPrefix + r, NodeIndex(GlobalNodes(root))) == []
  {
    NodeIndexLookup(GlobalNodes(root), Str(r));
    assert (RefPrefix + r)[|RefPrefix|..] == r;
  }
}
