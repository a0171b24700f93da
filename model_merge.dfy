/**
 * The merge both resolvers share: the global model pools (every category of
 * `models` except the two path keys, each `lst or []`), overlaid with the
 * selected workflow's `models` — a category present in both is concatenated
 * with Python `+`, a workflow-only category is added after the global ones.
 * Both resolver copies carry this code unchanged, so it is modelled once.
 */
module ModelMerge {
  import opened Wrappers
  import opened Yaml
  import opened Manifest

  /** A Python dict with string keys, in insertion order. */
  type Dict<V> = seq<(string, V)>

  /** `d.get(k)`: the value under `k`, if there is one. */
  function Find<V>(d: Dict<V>, k: string): (r: Option<V>)
    ensures r.Some? <==> exists j :: 0 <= j < |d| && d[j].0 == k
  {
    var i := KeyIndex(d, k);
    if i < |d| then Some(d[i].1) else None
  }

  /** The keys of a dict, in order. */
  function KeysOf<V>(d: Dict<V>): (ks: seq<string>)
    ensures |ks| == |d| && forall j :: 0 <= j < |d| ==> ks[j] == d[j].0
  {
    seq(|d|, j requires 0 <= j < |d| => d[j].0)
  }

  /** `d[k] = v`: the value is replaced in place when `k` is present, appended otherwise. */
  function Put<V>(d: Dict<V>, k: string, v: V): Dict<V> {
    var i := KeyIndex(d, k);
    if i < |d| then d[i := (k, v)] else d + [(k, v)]
  }

  /** After `d[k] = v`, `k` maps to `v` and every other key to what it did. */
  lemma PutFind<V>(d: Dict<V>, k: string, v: V, k2: string)
    ensures Find(Put(d, k, v), k2) == if k2 == k then Some(v) else Find(d, k2)
  {
    var r := Put(d, k, v);
    var i := KeyIndex(d, k);
    if k2 == k {
      KeyIndexIs(r, k, i);
    } else {
      var i2 := KeyIndex(d, k2);
      if i2 < |d| {
        KeyIndexIs(r, k2, i2);
      } else {
        KeyIndexIs(r, k2, |r|);
      }
    }
  }

  /** `d[k] = v` keeps the key order, adding `k` at the end when it is new. */
  lemma PutKeys<V>(d: Dict<V>, k: string, v: V)
    ensures KeysOf(Put(d, k, v)) == if Find(d, k).Some? then KeysOf(d) else KeysOf(d) + [k]
  {
  }

  /** Setting a key the dict lacks appends it. */
  lemma PutFresh<V>(d: Dict<V>, k: string, v: V)
    requires Find(d, k).None?
    ensures Put(d, k, v) == d + [(k, v)]
  {
  }

  /** The entry at `j` of a dict without repeated keys is what `get` finds. */
  lemma FindAt<V>(d: Dict<V>, j: nat)
    requires DistinctKeys(d) && j < |d|
    ensures Find(d, d[j].0) == Some(d[j].1)
  {
    KeyIndexIs(d, d[j].0, j);
  }

  predicate IsNumber(v: Value) {
    v.Int? || v.Bool?
  }

  function NumberValue(v: Value): int
    requires IsNumber(v)
  {
    if v.Int? then v.i else if v.b then 1 else 0
  }

  /** Python's `a + b` on YAML values, `None` where it raises TypeError. */
  function Add(a: Value, b: Value): (r: Option<Value>)
    ensures r.Some? <==> (a.List? && b.List?) || (a.Str? && b.Str?) || (IsNumber(a) && IsNumber(b))
  {
    if a.List? && b.List? then Some(List(a.items + b.items))
    else if a.Str? && b.Str? then Some(Str(a.s + b.s))
    else if IsNumber(a) && IsNumber(b) then Some(Int(NumberValue(a) + NumberValue(b)))
    else None
  }

  // ------------------------------------------------------------------
  // Global pools
  // ------------------------------------------------------------------

  /** `for cat, lst in models.items(): if cat not in PathKeys: d[cat] = lst or []`. */
  function Pools(models: Dict<Value>, n: nat): Dict<Value>
    requires n <= |models|
  {
    if n == 0 then []
    else if models[n - 1].0 in PathKeys then Pools(models, n - 1)
    else Put(Pools(models, n - 1), models[n - 1].0, Or(models[n - 1].1, EmptyList))
  }

  /** The global categories, in document order. */
  function PoolKeys(models: Dict<Value>, n: nat): seq<string>
    requires n <= |models|
  {
    if n == 0 then []
    else PoolKeys(models, n - 1) + (if models[n - 1].0 in PathKeys then [] else [models[n - 1].0])
  }

  /**
   * A pool holds `lst or []` for each global category and nothing for the
   * path keys or for a category `models` lacks.
   */
  lemma {:induction false} PoolsFind(models: Dict<Value>, n: nat, k: string)
    requires n <= |models| && DistinctKeys(models)
    ensures k in PathKeys ==> Find(Pools(models, n), k) == None
    ensures forall j :: 0 <= j < n && models[j].0 == k && k !in PathKeys ==>
              Find(Pools(models, n), k) == Some(Or(models[j].1, EmptyList))
    ensures (forall j :: 0 <= j < n ==> models[j].0 != k) ==> Find(Pools(models, n), k) == None
  {
    if n > 0 {
      PoolsFind(models, n - 1, k);
      var (cat, lst) := models[n - 1];
      if cat !in PathKeys {
        PutFind(Pools(models, n - 1), cat, Or(lst, EmptyList), k);
      }
    }
  }

  /** The pools list the global categories in document order. */
  lemma {:induction false} PoolsKeys(models: Dict<Value>, n: nat)
    requires n <= |models| && DistinctKeys(models)
    ensures KeysOf(Pools(models, n)) == PoolKeys(models, n)
  {
    if n > 0 {
      PoolsKeys(models, n - 1);
      var (cat, lst) := models[n - 1];
      if cat !in PathKeys {
        assert forall j :: 0 <= j < n - 1 ==> models[j].0 != cat;
        PoolsFind(models, n - 1, cat);
        PutKeys(Pools(models, n - 1), cat, Or(lst, EmptyList));
      }
    }
  }

  /** The global pool a `ref:` entry of category `cat` is looked up in: `pools.get(cat, [])`. */
  function PoolOf(pools: Dict<Value>, cat: string): (pool: seq<Value>)
    ensures Find(pools, cat).None? ==> pool == []
  {
    Iterate(Find(pools, cat).GetOr(EmptyList))
  }

  // ------------------------------------------------------------------
  // Workflow overlay
  // ------------------------------------------------------------------

  /** One category of the overlay: `cur + (lst or [])` when present, `lst or []` when new. */
  function Combine(cur: Option<Value>, lst: Value): Option<Value> {
    match cur
    case Some(c) => Add(c, Or(lst, EmptyList))
    case None => Some(Or(lst, EmptyList))
  }

  /**
   * `for cat, lst in workflow_models.items(): all_models[cat] = ...`, or
   * `None` when one of the `+` raises.
   */
  function Overlay(acc: Dict<Value>, wf: Dict<Value>, n: nat): Option<Dict<Value>>
    requires n <= |wf|
  {
    if n == 0 then Some(acc)
    else match Overlay(acc, wf, n - 1)
      case None => None
      case Some(d) =>
        match Combine(Find(d, wf[n - 1].0), wf[n - 1].1)
        case None => None
        case Some(v) => Some(Put(d, wf[n - 1].0, v))
  }

  /** The categories the workflow adds, in its order. */
  function NewKeys(acc: Dict<Value>, wf: Dict<Value>, n: nat): seq<string>
    requires n <= |wf|
  {
    if n == 0 then []
    else NewKeys(acc, wf, n - 1) + (if Find(acc, wf[n - 1].0).Some? then [] else [wf[n - 1].0])
  }

  /** `all_models` after both loops. */
  function Merge(models: Dict<Value>, wf: Dict<Value>): Option<Dict<Value>> {
    Overlay(Pools(models, |models|), wf, |wf|)
  }

  lemma {:induction false} OverlayPrefix(acc: Dict<Value>, wf: Dict<Value>, m: nat, n: nat)
    requires m <= n <= |wf| && Overlay(acc, wf, n).Some?
    ensures Overlay(acc, wf, m).Some?
    decreases n
  {
    if m < n {
      OverlayPrefix(acc, wf, m, n - 1);
    }
  }

  /** The last overlay step of a successful overlay. */
  lemma OverlayStep(acc: Dict<Value>, wf: Dict<Value>, n: nat)
    requires 0 < n <= |wf| && Overlay(acc, wf, n).Some?
    ensures Overlay(acc, wf, n - 1).Some?
    ensures var d := Overlay(acc, wf, n - 1).value;
            var v := Combine(Find(d, wf[n - 1].0), wf[n - 1].1);
            v.Some? && Overlay(acc, wf, n).value == Put(d, wf[n - 1].0, v.value)
  {
  }

  /**
   * With distinct workflow categories, each workflow category ends up as the
   * combination of the accumulated value and the workflow's list.
   */
  lemma {:induction false} OverlayFind(acc: Dict<Value>, wf: Dict<Value>, n: nat, k: string, j: nat)
    requires n <= |wf| && DistinctKeys(wf) && Overlay(acc, wf, n).Some?
    requires j < n && wf[j].0 == k
    ensures Find(Overlay(acc, wf, n).value, k) == Combine(Find(acc, k), wf[j].1)
    decreases n
  {
    OverlayStep(acc, wf, n);
    var d := Overlay(acc, wf, n - 1).value;
    var (cat, lst) := wf[n - 1];
    PutFind(d, cat, Combine(Find(d, cat), lst).value, k);
    if j == n - 1 {
      assert forall j' :: 0 <= j' < n - 1 ==> wf[j'].0 != k;
      OverlayUntouched(acc, wf, n - 1, k);
    } else {
      assert cat != k;
      OverlayFind(acc, wf, n - 1, k, j);
    }
  }

  /** A category the first `n` workflow entries do not name keeps its accumulated value. */
  lemma {:induction false} OverlayUntouched(acc: Dict<Value>, wf: Dict<Value>, n: nat, k: string)
    requires n <= |wf| && Overlay(acc, wf, n).Some?
    requires forall j :: 0 <= j < n ==> wf[j].0 != k
    ensures Find(Overlay(acc, wf, n).value, k) == Find(acc, k)
    decreases n
  {
    if n > 0 {
      OverlayStep(acc, wf, n);
      var d := Overlay(acc, wf, n - 1).value;
      var (cat, lst) := wf[n - 1];
      OverlayUntouched(acc, wf, n - 1, k);
      PutFind(d, cat, Combine(Find(d, cat), lst).value, k);
    }
  }

  /** One overlay step on the keys: a key already there keeps its place, a new one goes last. */
  lemma PutKeysAfter(d: Dict<Value>, acc: Dict<Value>, added: seq<string>, cat: string, v: Value)
    requires KeysOf(d) == KeysOf(acc) + added && Find(d, cat) == Find(acc, cat)
    ensures KeysOf(Put(d, cat, v)) == KeysOf(acc) + (added + if Find(acc, cat).Some? then [] else [cat])
  {
    PutKeys(d, cat, v);
    if Find(acc, cat).None? {
      assert (KeysOf(acc) + added) + [cat] == KeysOf(acc) + (added + [cat]);
    } else {
      assert added + [] == added;
    }
  }

  /** The overlay keeps the existing key order and appends the new categories. */
  lemma {:induction false} OverlayKeys(acc: Dict<Value>, wf: Dict<Value>, n: nat)
    requires n <= |wf| && DistinctKeys(wf) && Overlay(acc, wf, n).Some?
    ensures KeysOf(Overlay(acc, wf, n).value) == KeysOf(acc) + NewKeys(acc, wf, n)
    decreases n
  {
    if n > 0 {
      OverlayStep(acc, wf, n);
      var d := Overlay(acc, wf, n - 1).value;
      var cat := wf[n - 1].0;
      var v := Combine(Find(d, cat), wf[n - 1].1).value;
      OverlayKeys(acc, wf, n - 1);
      assert forall j :: 0 <= j < n - 1 ==> wf[j].0 != cat;
      OverlayUntouched(acc, wf, n - 1, cat);
      PutKeysAfter(d, acc, NewKeys(acc, wf, n - 1), cat, v);
    }
  }

  /**
   * After the merge a category holds: its global list followed by the
   * workflow's (the two concatenated with `+`) when both have it; the
   * global list alone, or the workflow's alone, when only one has it;
   * nothing otherwise. `dest_dir` and `source_dir` count as global only
   * through a workflow.
   */
  lemma MergeFind(models: Dict<Value>, wf: Dict<Value>, k: string)
    requires DistinctKeys(models) && DistinctKeys(wf) && Merge(models, wf).Some?
    ensures var pool := Find(Pools(models, |models|), k);
            Find(Merge(models, wf).value, k) ==
              match Find(wf, k)
              case Some(lst) => Combine(pool, lst)
              case None => pool
  {
    var pools := Pools(models, |models|);
    var w := Find(wf, k);
    if w.Some? {
      var j := KeyIndex(wf, k);
      FindAt(wf, j);
      OverlayFind(pools, wf, |wf|, k, j);
    } else {
      OverlayUntouched(pools, wf, |wf|, k);
    }
  }

  /** Two lists are concatenated: the global entries first, then the workflow's. */
  lemma MergeConcatenates(models: Dict<Value>, wf: Dict<Value>, i: nat, j: nat)
    requires DistinctKeys(models) && DistinctKeys(wf) && Merge(models, wf).Some?
    requires i < |models| && j < |wf| && models[i].0 == wf[j].0 && models[i].0 !in PathKeys
    requires models[i].1.List? && wf[j].1.List?
    ensures Find(Merge(models, wf).value, wf[j].0) == Some(List(Or(models[i].1, EmptyList).items + Or(wf[j].1, EmptyList).items))
  {
    var k := wf[j].0;
    PoolsFind(models, |models|, k);
    FindAt(wf, j);
    MergeFind(models, wf, k);
  }

  /** A category the workflow does not mention keeps its global value. */
  lemma MergeKeepsGlobal(models: Dict<Value>, wf: Dict<Value>, i: nat)
    requires DistinctKeys(models) && DistinctKeys(wf) && Merge(models, wf).Some?
    requires i < |models| && models[i].0 !in PathKeys && Find(wf, models[i].0).None?
    ensures Find(Merge(models, wf).value, models[i].0) == Some(Or(models[i].1, EmptyList))
  {
    PoolsFind(models, |models|, models[i].0);
    MergeFind(models, wf, models[i].0);
  }

  /** The merged categories: the global ones in document order, then the workflow-only ones in the workflow's order. */
  lemma MergeKeys(models: Dict<Value>, wf: Dict<Value>)
    requires DistinctKeys(models) && DistinctKeys(wf) && Merge(models, wf).Some?
    ensures KeysOf(Merge(models, wf).value) == PoolKeys(models, |models|) + NewKeys(Pools(models, |models|), wf, |wf|)
  {
    PoolsKeys(models, |models|);
    OverlayKeys(Pools(models, |models|), wf, |wf|);
  }

  // ------------------------------------------------------------------
  // The loops
  // ------------------------------------------------------------------

  /** The loop that fills `global_models_by_cat` (and starts `all_models`). */
  method CollectPools(models: Dict<Value>) returns (pools: Dict<Value>)
    ensures pools == Pools(models, |models|)
  {
    pools := [];
    for i := 0 to |models|
      invariant pools == Pools(models, i)
    {
      var (cat, lst) := models[i];
      if cat !in PathKeys {
        pools := Put(pools, cat, Or(lst, EmptyList));
      }
    }
  }

  /** Both merge loops. */
  method MergeModels(models: Dict<Value>, workflowModels: Dict<Value>) returns (allModels: Dict<Value>)
    requires Merge(models, workflowModels).Some?
    ensures allModels == Merge(models, workflowModels).value
  {
    allModels := CollectPools(models);
    ghost var pools := allModels;
    for i := 0 to |workflowModels|
      invariant Overlay(pools, workflowModels, i) == Some(allModels)
    {
      OverlayPrefix(pools, workflowModels, i + 1, |workflowModels|);
      var (cat, lst) := workflowModels[i];
      var cur := Find(allModels, cat);
      ghost var next := Combine(cur, lst);
      assert Overlay(pools, workflowModels, i + 1) == if next.None? then None else Some(Put(allModels, cat, next.value));
      assert next.Some?;
      if cur.Some? {
        allModels := Put(allModels, cat, Add(cur.value, Or(lst, EmptyList)).value);
      } else {
        allModels := Put(allModels, cat, Or(lst, EmptyList));
      }
    }
  }

  /** `for cat, lst in wf_models.items(): workflow_models[cat] = lst`: a copy of the mapping. */
  method CopyMapping(entries: Dict<Value>) returns (copy: Dict<Value>)
    requires DistinctKeys(entries)
    ensures copy == entries
  {
    copy := [];
    for i := 0 to |entries|
      invariant copy == entries[..i]
    {
      var (cat, lst) := entries[i];
      assert Find(copy, cat).None?;
      copy := Put(copy, cat, lst);
      assert entries[..i + 1] == entries[..i] + [(cat, lst)];
    }
  }
}
