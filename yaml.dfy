/**
 * A parsed YAML document, as `yaml.safe_load` hands it to the installer
 * scripts, and the few Python operations the scripts apply to it: truth
 * value, `or`, `in`, `.get`, iteration, `==` and `str()`.
 */
module Yaml {
  import opened Text

  /**
   * A YAML node. A mapping keeps its keys in document order; a loader never
   * produces a key twice, and `Get` below finds the first match.
   */
  datatype Value =
    | Str(s: string)
    | Bool(b: bool)
    | Int(i: int)
    | Null
    | List(items: seq<Value>)
    | Map(entries: seq<(string, Value)>)

  /** Python's truth value of a node. */
  predicate Truthy(v: Value) {
    match v
    case Str(s) => s != ""
    case Bool(b) => b
    case Int(i) => i != 0
    case Null => false
    case List(xs) => xs != []
    case Map(es) => es != []
  }

  /** Python's `a or b`. */
  function Or(a: Value, b: Value): (r: Value)
    ensures Truthy(a) ==> r == a
    ensures !Truthy(a) ==> r == b
  {
    if Truthy(a) then a else b
  }

  const EmptyMap: Value := Map([])
  const EmptyList: Value := List([])

  /** Position of the first entry with key `k`, or `|es|`. */
  function KeyIndex<V>(es: seq<(string, V)>, k: string): (i: nat)
    ensures i <= |es|
    ensures i < |es| ==> es[i].0 == k
    ensures forall j :: 0 <= j < i ==> es[j].0 != k
  {
    if es == [] then 0
    else if es[0].0 == k then 0
    else 1 + KeyIndex(es[1..], k)
  }

  /** The first entry with key `k` is at `i` (or there is none and `i == |es|`). */
  lemma KeyIndexIs<V>(es: seq<(string, V)>, k: string, i: nat)
    requires i <= |es| && (i < |es| ==> es[i].0 == k)
    requires forall j :: 0 <= j < i ==> es[j].0 != k
    ensures KeyIndex(es, k) == i
  {
  }

  /** No key occurs twice, as in every mapping a YAML loader returns. */
  predicate DistinctKeys<V>(es: seq<(string, V)>) {
    forall a, b :: 0 <= a < b < |es| ==> es[a].0 != es[b].0
  }

  /** Python's `k in v` for a mapping `v`. */
  predicate HasKey(v: Value, k: string) {
    v.Map? && KeyIndex(v.entries, k) < |v.entries|
  }

  /** Python's `v.get(k)`: the value under `k`, `None` when it is missing. */
  function Get(v: Value, k: string): (r: Value)
    ensures !HasKey(v, k) ==> r == Null
  {
    if HasKey(v, k) then v.entries[KeyIndex(v.entries, k)].1 else Null
  }

  /** The lookups in a one-entry mapping. */
  lemma OneEntry(m: Value, k: string, v: Value, other: string)
    requires m == Map([(k, v)]) && other != k
    ensures HasKey(m, k) && Get(m, k) == v && !HasKey(m, other)
  {
    KeyIndexIs(m.entries, k, 0);
    KeyIndexIs(m.entries, other, 1);
  }

  /** The lookups in a two-entry mapping. */
  lemma TwoEntries(m: Value, k1: string, v1: Value, k2: string, v2: Value)
    requires m == Map([(k1, v1), (k2, v2)]) && k1 != k2
    ensures Get(m, k1) == v1 && Get(m, k2) == v2
  {
    KeyIndexIs(m.entries, k1, 0);
    KeyIndexIs(m.entries, k2, 1);
  }

  /** Python's `v.get(k, d)`. */
  function GetOr(v: Value, k: string, d: Value): (r: Value)
    ensures HasKey(v, k) ==> r == Get(v, k)
    ensures !HasKey(v, k) ==> r == d
  {
    if HasKey(v, k) then Get(v, k) else d
  }

  /** The keys of a mapping, in order (empty for anything else). */
  function Keys(v: Value): (ks: seq<string>)
    ensures v.Map? ==> |ks| == |v.entries|
    ensures v.Map? ==> forall k :: 0 <= k < |ks| ==> ks[k] == v.entries[k].0
  {
    if v.Map? then seq(|v.entries|, k requires 0 <= k < |v.entries| => v.entries[k].0) else []
  }

  /** `v.items()` of a mapping (empty for anything else). */
  function Entries(v: Value): (es: seq<(string, Value)>)
    ensures v.Map? ==> es == v.entries
    ensures !v.Map? ==> es == []
  {
    if v.Map? then v.entries else []
  }

  /**
   * What `for x in v` visits: the items of a list, the one-character strings
   * of a string, the keys of a mapping. Python raises for a number, a bool and
   * None; those give the empty sequence here.
   */
  function Iterate(v: Value): (xs: seq<Value>)
    ensures !v.List? ==> forall k :: 0 <= k < |xs| ==> xs[k].Str?
    ensures !Truthy(v) ==> xs == []
  {
    match v
    case List(items) => items
    case Str(s) => seq(|s|, k requires 0 <= k < |s| => Str([s[k]]))
    case Map(es) => seq(|es|, k requires 0 <= k < |es| => Str(es[k].0))
    case _ => []
  }

  /** `for x in v` does not raise. */
  predicate Iterable(v: Value) {
    v.List? || v.Str? || v.Map?
  }

  /** `for x in (v or [])` does not raise. */
  predicate IterableOrFalsy(v: Value) {
    !Truthy(v) || Iterable(v)
  }

  /** Lists and mappings cannot be put into a Python set or used as a dict key. */
  predicate Hashable(v: Value) {
    !v.List? && !v.Map?
  }

  /**
   * The value Python's `==` and hashing see: `True` and `False` are the
   * integers 1 and 0.
   */
  function Canonical(v: Value): (r: Value)
    ensures Hashable(v) <==> Hashable(r)
    ensures !r.Bool?
  {
    if v.Bool? then Int(if v.b then 1 else 0) else v
  }

  /** Python's `a == b`. */
  predicate Equal(a: Value, b: Value) {
    Canonical(a) == Canonical(b)
  }

  /** A string equals only a string with the same characters. */
  lemma EqualStr(a: Value, s: string)
    ensures Equal(a, Str(s)) <==> a == Str(s)
  {
  }

  /** Python's `str(v)`. */
  function ToStr(v: Value): string
    decreases v, 0
  {
    match v
    case Str(s) => s
    case Bool(b) => if b then "True" else "False"
    case Int(i) => IntToString(i)
    case Null => "None"
    case List(xs) =>
      "[" + Join(seq(|xs|, k requires 0 <= k < |xs| => Repr(xs[k])), ", ") + "]"
    case Map(es) =>
      "{" + Join(seq(|es|, k requires 0 <= k < |es| => "'" + es[k].0 + "': " + Repr(es[k].1)), ", ") + "}"
  }

  /** Python's `repr(v)` of a node inside a list or mapping. */
  function Repr(v: Value): string
    decreases v, 1
  {
    if v.Str? then "'" + v.s + "'" else ToStr(v)
  }

  /** `str()` of a true value is never the empty string. */
  lemma {:induction false} ToStrTruthy(v: Value)
    requires Truthy(v)
    ensures ToStr(v) != ""
  {
    match v
    case Str(s) =>
    case Bool(b) =>
    case Int(i) =>
    case List(xs) =>
    case Map(es) =>
  }
}
