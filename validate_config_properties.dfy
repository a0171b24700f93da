/**
 * What the validator's report means: when each section is clean, which
 * messages name which entries (and how often), and when a workflow `ref`
 * resolves.
 */
module ValidateConfigProperties {
  import opened Text
  import opened Yaml
  import opened Manifest
  import opened ValidateConfig

  // ------------------------------------------------------------------
  // Empty documents
  // ------------------------------------------------------------------

  /** An empty file (or any false document, which `or {}` replaces) is valid: exit 0 and the pass line. */
  lemma EmptyDocumentPasses(doc: Value)
    requires !Truthy(doc)
    ensures Validatable(doc)
    ensures Violations(doc) == []
    ensures ExitCode(Parsed(doc)) == 0
    ensures Report(Violations(doc)) == [PassedLine]
  {
    var root := Root(doc);
    assert root == EmptyMap;
    assert Keys(root) == [];
    assert !HasKey(root, "install") && !HasKey(root, "custom_nodes") && !HasKey(root, "workflows");
    assert Violations(doc) == [];
  }

  // ------------------------------------------------------------------
  // Messages name one index
  // ------------------------------------------------------------------

  lemma CharAfter(x: string, s1: string, y: string, s2: string)
    requires |x| < |y|
    ensures (x + "]" + s1)[|x|] == ']' && (y + "]" + s2)[|x|] == y[|x|]
  {
  }

  /** A run of digits ends where the first `]` is. */
  lemma DigitsThenBracket(x: string, s1: string, y: string, s2: string)
    requires forall k :: 0 <= k < |x| ==> '0' <= x[k] <= '9'
    requires forall k :: 0 <= k < |y| ==> '0' <= y[k] <= '9'
    requires x + "]" + s1 == y + "]" + s2
    ensures x == y && s1 == s2
  {
    var m1, m2 := x + "]" + s1, y + "]" + s2;
    if |x| < |y| {
      CharAfter(x, s1, y, s2);
      assert false;
    } else if |y| < |x| {
      CharAfter(y, s2, x, s1);
      assert false;
    } else {
      assert x == m1[..|x|] && y == m2[..|y|];
      assert s1 == m1[|x| + 1..] && s2 == m2[|y| + 1..];
    }
  }

  /** Two messages `path[a]...` and `path[b]...` are equal only when the indices and the rests are. */
  lemma IndexedMessageInjective(path: string, a: nat, s1: string, b: nat, s2: string)
    requires path + Index(a) + s1 == path + Index(b) + s2
    ensures a == b && s1 == s2
  {
    var x, y := NatToString(a), NatToString(b);
    var m1, m2 := path + Index(a) + s1, path + Index(b) + s2;
    var at := |path| + 1;
    assert m1 == path + "[" + (x + "]" + s1);
    assert m2 == path + "[" + (y + "]" + s2);
    assert m1[at..] == x + "]" + s1;
    assert m2[at..] == y + "]" + s2;
    DigitsThenBracket(x, s1, y, s2);
    NatToStringInjective(a, b);
  }

  // ------------------------------------------------------------------
  // 1. Top-level keys
  // ------------------------------------------------------------------

  lemma UnknownKeyMessageInjective(a: string, b: string)
    requires UnknownKeyMessage(a) == UnknownKeyMessage(b)
    ensures a == b
  {
    var p := "Unknown top-level key: ";
    assert a == UnknownKeyMessage(a)[|p|..];
    assert b == UnknownKeyMessage(b)[|p|..];
  }

  /**
   * With distinct keys (as a YAML mapping has), each key outside the
   * allowed four is reported exactly once, and no other key is reported.
   */
  lemma {:induction false} UnknownKeyReportedOnce(keys: seq<string>, n: nat, k: string)
    requires n <= |keys|
    requires forall a, b :: 0 <= a < b < |keys| ==> keys[a] != keys[b]
    ensures multiset(TopLevelErrors(keys, n))[UnknownKeyMessage(k)]
            == if k in keys[..n] && k !in TopLevelKeys then 1 else 0
  {
    if n > 0 {
      var key, msg := keys[n - 1], UnknownKeyMessage(k);
      var prev := TopLevelErrors(keys, n - 1);
      var last := if key in TopLevelKeys then [] else [UnknownKeyMessage(key)];
      assert TopLevelErrors(keys, n) == prev + last;
      UnknownKeyReportedOnce(keys, n - 1, k);
      assert multiset(prev + last)[msg] == multiset(prev)[msg] + multiset(last)[msg];
      PrefixStep(keys, n);
      if key == k {
        assert k !in keys[..n - 1] by {
          assert forall j :: 0 <= j < n - 1 ==> keys[j] != key;
        }
      } else {
        assert multiset(last)[msg] == 0 by {
          if UnknownKeyMessage(key) == msg {
            UnknownKeyMessageInjective(key, k);
            assert false;
          }
        }
      }
    }
  }

  // ------------------------------------------------------------------
  // 2. install
  // ------------------------------------------------------------------

  lemma {:induction false} InstallKeyErrorsMembership(keys: seq<string>, n: nat, k: string)
    requires n <= |keys|
    ensures InstallKeyMessage(k) in InstallKeyErrors(keys, n) <== k in keys[..n] && k !in InstallKeys
    ensures InstallKeyErrors(keys, n) == [] <==> forall j :: 0 <= j < n ==> keys[j] in InstallKeys
  {
    if n > 0 {
      InstallKeyErrorsMembership(keys, n - 1, k);
      assert keys[..n] == keys[..n - 1] + [keys[n - 1]];
    }
  }

  /** `install` is clean exactly when it is a mapping over the two known keys with a boolean `cpu_only`. */
  lemma InstallClean(install: Value)
    ensures InstallErrors(install) == [] <==>
              && install.Map?
              && (forall j :: 0 <= j < |install.entries| ==> install.entries[j].0 in InstallKeys)
              && (HasKey(install, "cpu_only") ==> Get(install, "cpu_only").Bool?)
  {
    if install.Map? {
      InstallKeyErrorsMembership(Keys(install), |install.entries|, "");
    }
  }

  /** An unknown key and a non-boolean `cpu_only` are both reported. */
  lemma InstallReportsBoth(install: Value, j: nat)
    requires install.Map? && j < |install.entries| && install.entries[j].0 !in InstallKeys
    requires HasKey(install, "cpu_only") && !Get(install, "cpu_only").Bool?
    ensures InstallKeyMessage(install.entries[j].0) in InstallErrors(install)
    ensures CpuOnlyMessage in InstallErrors(install)
  {
    var keys := Keys(install);
    assert keys[j] == install.entries[j].0;
    InstallKeyErrorsMembership(keys, |keys|, keys[j]);
    assert keys[..|keys|] == keys;
  }

  // ------------------------------------------------------------------
  // 3. Model entry lists
  // ------------------------------------------------------------------

  /** What an entry must look like: a string, or a mapping with either `ref` or content fields, not both. */
  predicate WellFormedItem(item: Value) {
    || item.Str?
    || (item.Map? && (HasContent(item) || HasKey(item, "ref")) && !(HasKey(item, "ref") && HasContent(item)))
  }

  lemma {:induction false} ItemListClean(path: string, items: seq<Value>, n: nat)
    requires n <= |items|
    ensures ItemListErrors(path, items, n) == [] <==> forall j :: 0 <= j < n ==> WellFormedItem(items[j])
  {
    if n > 0 {
      ItemListClean(path, items, n - 1);
    }
  }

  /** A category is clean iff it is a list of well-formed entries. */
  lemma CategoryClean(prefix: string, k: string, v: Value)
    ensures CategoryErrors(prefix, k, v) == [] <==> v.List? && forall item :: item in v.items ==> WellFormedItem(item)
  {
    if v.List? {
      ItemListClean(prefix + k, v.items, |v.items|);
    }
  }

  /** A category that is not a list gets exactly one message, `<prefix><k> must be a list`. */
  lemma CategoryNotList(prefix: string, k: string, v: Value)
    requires !v.List?
    ensures CategoryErrors(prefix, k, v) == [prefix + k + " must be a list"]
  {
  }

  /** A skipped path key, or a list of well-formed entries. */
  predicate SectionEntryClean(e: (string, Value), skipPaths: bool) {
    (skipPaths && e.0 in PathKeys) || (e.1.List? && forall item :: item in e.1.items ==> WellFormedItem(item))
  }

  /**
   * A `models` section is clean iff every category (all of them in a
   * workflow; all but `dest_dir` and `source_dir` globally) is clean.
   */
  lemma SectionCleanStep(prefix: string, es: seq<(string, Value)>, skipPaths: bool, n: nat)
    requires 0 < n <= |es|
    ensures SectionErrors(prefix, es, skipPaths, n) == [] <==>
              SectionErrors(prefix, es, skipPaths, n - 1) == [] && SectionEntryClean(es[n - 1], skipPaths)
  {
    CategoryClean(prefix, es[n - 1].0, es[n - 1].1);
  }

  /** The first `n` categories of a section are clean. */
  predicate EntriesClean(es: seq<(string, Value)>, skipPaths: bool, n: nat)
    requires n <= |es|
  {
    n == 0 || (EntriesClean(es, skipPaths, n - 1) && SectionEntryClean(es[n - 1], skipPaths))
  }

  lemma {:induction false} SectionErrorsClean(prefix: string, es: seq<(string, Value)>, skipPaths: bool, n: nat)
    requires n <= |es|
    ensures SectionErrors(prefix, es, skipPaths, n) == [] <==> EntriesClean(es, skipPaths, n)
  {
    if n > 0 {
      SectionErrorsClean(prefix, es, skipPaths, n - 1);
      SectionCleanStep(prefix, es, skipPaths, n);
    }
  }

  lemma {:induction false} EntriesCleanAll(es: seq<(string, Value)>, skipPaths: bool, n: nat)
    requires n <= |es|
    ensures EntriesClean(es, skipPaths, n) <==> forall k :: 0 <= k < n ==> SectionEntryClean(es[k], skipPaths)
  {
    if n > 0 {
      EntriesCleanAll(es, skipPaths, n - 1);
    }
  }

  lemma SectionClean(prefix: string, es: seq<(string, Value)>, skipPaths: bool, n: nat)
    requires n <= |es|
    ensures SectionErrors(prefix, es, skipPaths, n) == [] <==>
              forall k :: 0 <= k < n ==> SectionEntryClean(es[k], skipPaths)
  {
    SectionErrorsClean(prefix, es, skipPaths, n);
    EntriesCleanAll(es, skipPaths, n);
  }

  /** The three problems an entry of a model list can be reported for (lines 60-75). */
  datatype ItemProblem = MissingContent | Conflict | WrongType

  /** The message naming entry `j` of the list at `path` for problem `p`. */
  function ProblemMessage(path: string, j: nat, p: ItemProblem): string {
    match p
    case MissingContent => MissingContentMessage(path, j)
    case Conflict => ConflictMessage(path, j)
    case WrongType => ItemTypeMessage(path, j)
  }

  /** Whether an entry is reported for `p`, as lines 60-75 decide. */
  predicate Reports(p: ItemProblem, item: Value) {
    match p
    case MissingContent => item.Map? && !HasContent(item) && !HasKey(item, "ref")
    case Conflict => item.Map? && HasKey(item, "ref") && HasContent(item)
    case WrongType => !item.Str? && !item.Map?
  }

  /** How many times an entry's message for `p` is expected: once if it is reported for `p`. */
  function Expected(p: ItemProblem, item: Value): nat {
    if Reports(p, item) then 1 else 0
  }

  /** Item `k`'s messages carry entry `j`'s message for `p` once if `k` is `j` and it is reported for `p`, else never. */
  lemma ItemMessageCountAt(path: string, j: nat, p: ItemProblem, k: nat, item: Value)
    ensures multiset(ItemErrors(path, k, item))[ProblemMessage(path, j, p)] == if k == j then Expected(p, item) else 0
  {
    var missing := " must have 'urn', 'url', 'id', or 'ref' field";
    var conflict := " cannot have both 'ref' and direct content fields";
    var wrongType := " must be str or mapping";
    var tail := match p case MissingContent => missing case Conflict => conflict case WrongType => wrongType;
    var m := ProblemMessage(path, j, p);
    assert m == path + Index(j) + tail;
    if m == MissingContentMessage(path, k) {
      IndexedMessageInjective(path, j, tail, k, missing);
    }
    if m == ConflictMessage(path, k) {
      IndexedMessageInjective(path, j, tail, k, conflict);
    }
    if m == ItemTypeMessage(path, k) {
      IndexedMessageInjective(path, j, tail, k, wrongType);
    }
  }

  lemma ItemCountStep(path: string, items: seq<Value>, n: nat, m: string)
    requires 0 < n <= |items|
    ensures multiset(ItemListErrors(path, items, n))[m]
            == multiset(ItemListErrors(path, items, n - 1))[m] + multiset(ItemErrors(path, n - 1, items[n - 1]))[m]
  {
    assert ItemListErrors(path, items, n) == ItemListErrors(path, items, n - 1) + ItemErrors(path, n - 1, items[n - 1]);
  }

  lemma {:induction false} ItemMessageNotBefore(path: string, items: seq<Value>, n: nat, j: nat, p: ItemProblem)
    requires n <= |items| && n <= j
    ensures multiset(ItemListErrors(path, items, n))[ProblemMessage(path, j, p)] == 0
  {
    if n > 0 {
      ItemMessageNotBefore(path, items, n - 1, j, p);
      ItemMessageOther(path, items, n, j, p, 0);
    }
  }

  /** Entry `n - 1`, when it is not `j`, leaves the count of `j`'s message as it was. */
  lemma ItemMessageOther(path: string, items: seq<Value>, n: nat, j: nat, p: ItemProblem, c: int)
    requires 0 < n <= |items| && n - 1 != j
    requires multiset(ItemListErrors(path, items, n - 1))[ProblemMessage(path, j, p)] == c
    ensures multiset(ItemListErrors(path, items, n))[ProblemMessage(path, j, p)] == c
  {
    var m := ProblemMessage(path, j, p);
    ItemCountStep(path, items, n, m);
    assert multiset(ItemErrors(path, n - 1, items[n - 1]))[m] == 0 by {
      ItemMessageCountAt(path, j, p, n - 1, items[n - 1]);
    }
  }

  /**
   * Among the messages for its list, entry `j` gets the message for each
   * problem exactly once when it is reported for it, and never otherwise.
   */
  lemma {:induction false} ItemMessageCount(path: string, items: seq<Value>, n: nat, j: nat, p: ItemProblem)
    requires j < n <= |items|
    ensures multiset(ItemListErrors(path, items, n))[ProblemMessage(path, j, p)] == Expected(p, items[j])
  {
    if n - 1 == j {
      ItemMessageFirst(path, items, j, p);
    } else {
      ItemMessageCount(path, items, n - 1, j, p);
      ItemMessageOther(path, items, n, j, p, Expected(p, items[j]));
    }
  }

  /** Up to and including entry `j`, its message for `p` occurs as often as expected. */
  lemma ItemMessageFirst(path: string, items: seq<Value>, j: nat, p: ItemProblem)
    requires j < |items|
    ensures multiset(ItemListErrors(path, items, j + 1))[ProblemMessage(path, j, p)] == Expected(p, items[j])
  {
    var m := ProblemMessage(path, j, p);
    ItemCountStep(path, items, j + 1, m);
    ItemMessageNotBefore(path, items, j, j, p);
    assert multiset(ItemErrors(path, j, items[j]))[m] == Expected(p, items[j]) by {
      ItemMessageCountAt(path, j, p, j, items[j]);
    }
  }

  /**
   * An entry with both `ref` and a content field gets exactly one conflict
   * message naming its path among the messages for its list, and no
   * missing-field message.
   */
  lemma ConflictReportedOnce(path: string, items: seq<Value>, n: nat, j: nat)
    requires j < n <= |items|
    requires items[j].Map? && HasKey(items[j], "ref") && HasContent(items[j])
    ensures multiset(ItemListErrors(path, items, n))[ConflictMessage(path, j)] == 1
    ensures multiset(ItemListErrors(path, items, n))[MissingContentMessage(path, j)] == 0
  {
    ItemMessageCount(path, items, n, j, Conflict);
    ItemMessageCount(path, items, n, j, MissingContent);
  }

  /** A mapping with none of `urn`, `url`, `id`, `ref` gets its missing-field message exactly once, and no conflict message. */
  lemma MissingReportedOnce(path: string, items: seq<Value>, n: nat, j: nat)
    requires j < n <= |items|
    requires items[j].Map? && !HasContent(items[j]) && !HasKey(items[j], "ref")
    ensures multiset(ItemListErrors(path, items, n))[MissingContentMessage(path, j)] == 1
    ensures multiset(ItemListErrors(path, items, n))[ConflictMessage(path, j)] == 0
  {
    ItemMessageCount(path, items, n, j, MissingContent);
    ItemMessageCount(path, items, n, j, Conflict);
  }

  /** An entry that is neither a string nor a mapping gets `must be str or mapping` exactly once. */
  lemma ItemTypeReportedOnce(path: string, items: seq<Value>, n: nat, j: nat)
    requires j < n <= |items|
    requires !items[j].Str? && !items[j].Map?
    ensures multiset(ItemListErrors(path, items, n))[ItemTypeMessage(path, j)] == 1
  {
    ItemMessageCount(path, items, n, j, WrongType);
  }

  // ------------------------------------------------------------------
  // 4. Global custom nodes
  // ------------------------------------------------------------------

  /** A mapping with a `url` or an `id`. */
  predicate WellFormedNode(node: Value) {
    node.Map? && (HasKey(node, "url") || HasKey(node, "id"))
  }

  /** The global nodes are clean iff each is a mapping with `url` or `id` (an `id` alone is enough). */
  lemma {:induction false} NodeListClean(nodes: seq<Value>, n: nat)
    requires n <= |nodes|
    ensures NodeListErrors(nodes, n) == [] <==> forall j :: 0 <= j < n ==> WellFormedNode(nodes[j])
  {
    if n > 0 {
      NodeListClean(nodes, n - 1);
      NodeListCleanStep(nodes, n);
    }
  }

  lemma NodeListCleanStep(nodes: seq<Value>, n: nat)
    requires 0 < n <= |nodes|
    requires NodeListErrors(nodes, n - 1) == [] <==> forall j :: 0 <= j < n - 1 ==> WellFormedNode(nodes[j])
    ensures NodeListErrors(nodes, n) == [] <==> forall j :: 0 <= j < n ==> WellFormedNode(nodes[j])
  {
    NodeListStep(nodes, n);
    NodeClean(n - 1, nodes[n - 1]);
    NodesStep(nodes, n);
  }

  lemma EmptyConcat(a: seq<string>, b: seq<string>)
    ensures a + b == [] <==> a == [] && b == []
  {
    assert |a + b| == |a| + |b|;
  }

  lemma NodeListStep(nodes: seq<Value>, n: nat)
    requires 0 < n <= |nodes|
    ensures NodeListErrors(nodes, n) == [] <==> NodeListErrors(nodes, n - 1) == [] && NodeErrors(n - 1, nodes[n - 1]) == []
  {
    EmptyConcat(NodeListErrors(nodes, n - 1), NodeErrors(n - 1, nodes[n - 1]));
  }

  lemma NodesStep(nodes: seq<Value>, n: nat)
    requires 0 < n <= |nodes|
    ensures (forall j :: 0 <= j < n ==> WellFormedNode(nodes[j])) <==>
              (forall j :: 0 <= j < n - 1 ==> WellFormedNode(nodes[j])) && WellFormedNode(nodes[n - 1])
  {
  }

  lemma NodeClean(j: nat, node: Value)
    ensures NodeErrors(j, node) == [] <==> WellFormedNode(node)
  {
  }

  // ------------------------------------------------------------------
  // 5. Workflow nodes
  // ------------------------------------------------------------------

  /** A mapping with exactly one of `url` and `ref`. */
  predicate WellFormedWorkflowNode(node: Value) {
    node.Map? && (HasKey(node, "url") != HasKey(node, "ref"))
  }

  /**
   * A workflow's nodes are clean iff each is a mapping with exactly one of
   * `url` and `ref` (an `id` does not count here).
   */
  lemma {:induction false} WorkflowNodeListClean(i: nat, nodes: seq<Value>, n: nat)
    requires n <= |nodes|
    ensures WorkflowNodeListErrors(i, nodes, n) == [] <==> forall j :: 0 <= j < n ==> WellFormedWorkflowNode(nodes[j])
  {
    if n > 0 {
      WorkflowNodeListClean(i, nodes, n - 1);
      WorkflowNodeListCleanStep(i, nodes, n);
    }
  }

  lemma WorkflowNodeListCleanStep(i: nat, nodes: seq<Value>, n: nat)
    requires 0 < n <= |nodes|
    requires WorkflowNodeListErrors(i, nodes, n - 1) == [] <==> forall j :: 0 <= j < n - 1 ==> WellFormedWorkflowNode(nodes[j])
    ensures WorkflowNodeListErrors(i, nodes, n) == [] <==> forall j :: 0 <= j < n ==> WellFormedWorkflowNode(nodes[j])
  {
    WorkflowNodeListStep(i, nodes, n);
    WorkflowNodeClean(i, n - 1, nodes[n - 1]);
    WorkflowNodesStep(nodes, n);
  }

  lemma WorkflowNodeListStep(i: nat, nodes: seq<Value>, n: nat)
    requires 0 < n <= |nodes|
    ensures WorkflowNodeListErrors(i, nodes, n) == [] <==>
              WorkflowNodeListErrors(i, nodes, n - 1) == [] && WorkflowNodeErrors(i, n - 1, nodes[n - 1]) == []
  {
    EmptyConcat(WorkflowNodeListErrors(i, nodes, n - 1), WorkflowNodeErrors(i, n - 1, nodes[n - 1]));
  }

  lemma WorkflowNodesStep(nodes: seq<Value>, n: nat)
    requires 0 < n <= |nodes|
    ensures (forall j :: 0 <= j < n ==> WellFormedWorkflowNode(nodes[j])) <==>
              (forall j :: 0 <= j < n - 1 ==> WellFormedWorkflowNode(nodes[j])) && WellFormedWorkflowNode(nodes[n - 1])
  {
  }

  lemma WorkflowNodeClean(i: nat, j: nat, node: Value)
    ensures WorkflowNodeErrors(i, j, node) == [] <==> WellFormedWorkflowNode(node)
  {
  }

  // ------------------------------------------------------------------
  // 6. Cross references
  // ------------------------------------------------------------------

  /** The id index holds exactly the ids of the mapping items that carry one. */
  lemma {:induction false} IdsOfMembership(items: seq<Value>, n: nat, v: Value)
    requires n <= |items|
    ensures v in IdsOf(items, n) <==>
              exists j :: 0 <= j < n && items[j].Map? && HasKey(items[j], "id") && Canonical(Get(items[j], "id")) == v
  {
    if n > 0 {
      IdsOfMembership(items, n - 1, v);
    }
  }

  /** The categories of `available_ids` are the global keys other than the two path keys. */
  lemma {:induction false} AvailableIdsDomain(es: seq<(string, Value)>, n: nat, cat: string)
    requires n <= |es|
    ensures cat in AvailableIds(es, n) <==> cat !in PathKeys && exists k :: 0 <= k < n && es[k].0 == cat
  {
    if n > 0 {
      AvailableIdsDomain(es, n - 1, cat);
    }
  }

  /** With distinct keys, a category's ids are the ids of its own entries. */
  lemma {:induction false} AvailableIdsAt(es: seq<(string, Value)>, n: nat, k: nat)
    requires k < n <= |es|
    requires DistinctKeys(es)
    requires es[k].0 !in PathKeys
    ensures es[k].0 in AvailableIds(es, n)
    ensures AvailableIds(es, n)[es[k].0] == IdsOf(Iterate(es[k].1), |Iterate(es[k].1)|)
  {
    if n - 1 != k {
      AvailableIdsAt(es, n - 1, k);
    }
  }

  /**
   * A workflow model `ref` in a global category resolves iff an entry of that
   * global category is a mapping whose `id` equals it (Python `==`, so
   * case-sensitive for strings).
   */
  lemma ModelRefResolves(root: Value, k: nat, r: Value)
    requires GlobalModels(root).Map? && DistinctKeys(GlobalModels(root).entries)
    requires k < |GlobalModels(root).entries| && GlobalModels(root).entries[k].0 !in PathKeys
    ensures var (cat, lst) := GlobalModels(root).entries[k];
            RefFound(cat, r, ModelIdIndex(root)) <==>
              exists x :: x in Iterate(lst) && x.Map? && HasKey(x, "id") && Equal(Get(x, "id"), r)
  {
    var es := GlobalModels(root).entries;
    var items := Iterate(es[k].1);
    AvailableIdsAt(es, |es|, k);
    IdsOfMembership(items, |items|, Canonical(r));
  }

  /** A `ref` in a category the global `models` lacks never resolves. */
  lemma ModelRefMissingCategory(root: Value, cat: string, r: Value)
    requires GlobalModels(root).Map?
    requires cat in PathKeys || cat !in Keys(GlobalModels(root))
    ensures !RefFound(cat, r, ModelIdIndex(root))
  {
    var es := GlobalModels(root).entries;
    AvailableIdsDomain(es, |es|, cat);
  }

  /** A workflow node `ref` resolves iff a global node is a mapping whose `id` equals it. */
  lemma NodeRefResolves(root: Value, r: Value)
    ensures Canonical(r) in NodeIdIndex(root) <==>
              exists x :: x in Iterate(GetOr(root, "custom_nodes", EmptyList)) && x.Map? && HasKey(x, "id") && Equal(Get(x, "id"), r)
  {
    var nodes := Iterate(GetOr(root, "custom_nodes", EmptyList));
    IdsOfMembership(nodes, |nodes|, Canonical(r));
  }

  /** A workflow category has no unresolved-ref message iff every `ref` in it resolves. */
  lemma {:induction false} CategoryRefsClean(i: nat, cat: string, items: seq<Value>, ids: map<string, set<Value>>, n: nat)
    requires n <= |items|
    ensures CategoryRefErrors(i, cat, items, ids, n) == [] <==>
              forall j :: 0 <= j < n && items[j].Map? && HasKey(items[j], "ref") ==> RefFound(cat, Get(items[j], "ref"), ids)
  {
    if n > 0 {
      CategoryRefsClean(i, cat, items, ids, n - 1);
    }
  }

  /** Item `k`'s messages carry the unresolved-ref message of entry `j` only when `k` is `j` and its ref is unresolved. */
  lemma RefCountAt(i: nat, cat: string, j: nat, r: Value, k: nat, item: Value, ids: map<string, set<Value>>)
    ensures k != j ==> multiset(ModelRefErrors(i, cat, k, item, ids))[ModelRefMessage(i, cat, j, r)] == 0
    ensures k == j && item.Map? && HasKey(item, "ref") && Get(item, "ref") == r ==>
              multiset(ModelRefErrors(i, cat, k, item, ids))[ModelRefMessage(i, cat, j, r)] == if RefFound(cat, r, ids) then 0 else 1
  {
    if k != j && item.Map? && HasKey(item, "ref") && ModelRefMessage(i, cat, j, r) == ModelRefMessage(i, cat, k, Get(item, "ref")) {
      var path := WorkflowPath(i) + ".models." + cat;
      var s1 := " ref '" + ToStr(r) + "' not found in models." + cat;
      var s2 := " ref '" + ToStr(Get(item, "ref")) + "' not found in models." + cat;
      IndexedMessageInjective(path, j, s1, k, s2);
    }
  }

  lemma RefCountStep(i: nat, cat: string, items: seq<Value>, ids: map<string, set<Value>>, n: nat, m: string)
    requires 0 < n <= |items|
    ensures multiset(CategoryRefErrors(i, cat, items, ids, n))[m]
            == multiset(CategoryRefErrors(i, cat, items, ids, n - 1))[m] + multiset(ModelRefErrors(i, cat, n - 1, items[n - 1], ids))[m]
  {
    assert CategoryRefErrors(i, cat, items, ids, n)
           == CategoryRefErrors(i, cat, items, ids, n - 1) + ModelRefErrors(i, cat, n - 1, items[n - 1], ids);
  }

  lemma {:induction false} RefMessageNotBefore(i: nat, cat: string, items: seq<Value>, ids: map<string, set<Value>>, n: nat, j: nat, r: Value)
    requires n <= |items| && n <= j
    ensures multiset(CategoryRefErrors(i, cat, items, ids, n))[ModelRefMessage(i, cat, j, r)] == 0
  {
    if n > 0 {
      RefMessageNotBefore(i, cat, items, ids, n - 1, j, r);
      RefCountStep(i, cat, items, ids, n, ModelRefMessage(i, cat, j, r));
      RefCountAt(i, cat, j, r, n - 1, items[n - 1], ids);
    }
  }

  /**
   * An unresolved model `ref` is reported exactly once, naming its path and
   * the ref; a resolved one not at all.
   */
  lemma {:induction false} RefReportedOnce(i: nat, cat: string, items: seq<Value>, ids: map<string, set<Value>>, n: nat, j: nat)
    requires j < n <= |items|
    requires items[j].Map? && HasKey(items[j], "ref")
    ensures var r := Get(items[j], "ref");
            multiset(CategoryRefErrors(i, cat, items, ids, n))[ModelRefMessage(i, cat, j, r)]
            == if RefFound(cat, r, ids) then 0 else 1
  {
    var r := Get(items[j], "ref");
    var m := ModelRefMessage(i, cat, j, r);
    var last := multiset(ModelRefErrors(i, cat, n - 1, items[n - 1], ids))[m];
    RefCountStep(i, cat, items, ids, n, m);
    RefCountAt(i, cat, j, r, n - 1, items[n - 1], ids);
    if n - 1 == j {
      RefMessageNotBefore(i, cat, items, ids, j, j, r);
    } else {
      assert last == 0;
      RefReportedOnce(i, cat, items, ids, n - 1, j);
    }
  }

  /** A workflow's node list has no unresolved-ref message iff every node `ref` in it resolves. */
  lemma {:induction false} NodeRefsClean(i: nat, nodes: seq<Value>, nodeIds: set<Value>, n: nat)
    requires n <= |nodes|
    ensures NodeListRefErrors(i, nodes, nodeIds, n) == [] <==>
              forall j :: 0 <= j < n && nodes[j].Map? && HasKey(nodes[j], "ref") ==> Canonical(Get(nodes[j], "ref")) in nodeIds
  {
    if n > 0 {
      NodeRefsClean(i, nodes, nodeIds, n - 1);
    }
  }

  /** Node `k`'s messages carry the unresolved-ref message of node `j` only when `k` is `j` and its ref is unresolved. */
  lemma NodeRefCountAt(i: nat, j: nat, r: Value, k: nat, node: Value, nodeIds: set<Value>)
    ensures k != j ==> multiset(NodeRefErrors(i, k, node, nodeIds))[NodeRefMessage(i, j, r)] == 0
    ensures k == j && node.Map? && HasKey(node, "ref") && Get(node, "ref") == r ==>
              multiset(NodeRefErrors(i, k, node, nodeIds))[NodeRefMessage(i, j, r)] == if Canonical(r) in nodeIds then 0 else 1
  {
    if k != j && node.Map? && HasKey(node, "ref") && NodeRefMessage(i, j, r) == NodeRefMessage(i, k, Get(node, "ref")) {
      var path := WorkflowPath(i) + ".custom_nodes";
      var s1 := " ref '" + ToStr(r) + "' not found in global custom_nodes";
      var s2 := " ref '" + ToStr(Get(node, "ref")) + "' not found in global custom_nodes";
      IndexedMessageInjective(path, j, s1, k, s2);
    }
  }

  lemma NodeRefCountStep(i: nat, nodes: seq<Value>, nodeIds: set<Value>, n: nat, m: string)
    requires 0 < n <= |nodes|
    ensures multiset(NodeListRefErrors(i, nodes, nodeIds, n))[m]
            == multiset(NodeListRefErrors(i, nodes, nodeIds, n - 1))[m] + multiset(NodeRefErrors(i, n - 1, nodes[n - 1], nodeIds))[m]
  {
    assert NodeListRefErrors(i, nodes, nodeIds, n)
           == NodeListRefErrors(i, nodes, nodeIds, n - 1) + NodeRefErrors(i, n - 1, nodes[n - 1], nodeIds);
  }

  lemma {:induction false} NodeRefMessageNotBefore(i: nat, nodes: seq<Value>, nodeIds: set<Value>, n: nat, j: nat, r: Value)
    requires n <= |nodes| && n <= j
    ensures multiset(NodeListRefErrors(i, nodes, nodeIds, n))[NodeRefMessage(i, j, r)] == 0
  {
    if n > 0 {
      var m := NodeRefMessage(i, j, r);
      NodeRefMessageNotBefore(i, nodes, nodeIds, n - 1, j, r);
      NodeRefCountStep(i, nodes, nodeIds, n, m);
      assert multiset(NodeRefErrors(i, n - 1, nodes[n - 1], nodeIds))[m] == 0 by {
        NodeRefCountAt(i, j, r, n - 1, nodes[n - 1], nodeIds);
      }
    }
  }

  /**
   * An unresolved node `ref` is reported exactly once, naming its path and
   * the ref; a resolved one not at all.
   */
  lemma {:induction false} NodeRefReportedOnce(i: nat, nodes: seq<Value>, nodeIds: set<Value>, n: nat, j: nat)
    requires j < n <= |nodes|
    requires nodes[j].Map? && HasKey(nodes[j], "ref")
    ensures var r := Get(nodes[j], "ref");
            multiset(NodeListRefErrors(i, nodes, nodeIds, n))[NodeRefMessage(i, j, r)]
            == if Canonical(r) in nodeIds then 0 else 1
  {
    var r := Get(nodes[j], "ref");
    var m := NodeRefMessage(i, j, r);
    var last := multiset(NodeRefErrors(i, n - 1, nodes[n - 1], nodeIds))[m];
    NodeRefCountStep(i, nodes, nodeIds, n, m);
    if n - 1 == j {
      assert last == if Canonical(r) in nodeIds then 0 else 1 by {
        NodeRefCountAt(i, j, r, n - 1, nodes[n - 1], nodeIds);
      }
      NodeRefMessageNotBefore(i, nodes, nodeIds, j, j, r);
    } else {
      assert last == 0 by {
        NodeRefCountAt(i, j, r, n - 1, nodes[n - 1], nodeIds);
      }
      NodeRefReportedOnce(i, nodes, nodeIds, n - 1, j);
    }
  }
}
