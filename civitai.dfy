/**
 * The decision logic of the Civitai downloader: telling URNs from direct
 * links, parsing model specifications, choosing where a file goes, building
 * the list of entries from arguments and environment, the thread count, and
 * picking the model version and files to fetch.
 */
module DownloadCivitai {
  import opened Wrappers
  import opened Text
  import opened Yaml
  import opened Manifest

  /** A `pathlib.Path`, as the sequence of its components. */
  type Path = seq<string>

  // ------------------------------------------------------------------
  // AIR URNs
  // ------------------------------------------------------------------

  /** The dictionary `parse_urn` returns. */
  datatype Urn = Urn(modelType: string, category: string, platform: string, modelId: string)

  const UrnScheme: string := "urn:air:"

  /** `parse_urn`: `urn:air:<type>:<category>:<platform>:<id>`, or `None`. */
  function ParseUrn(urn: string): (r: Option<Urn>)
    ensures r.Some? ==> StartsWith(urn, UrnScheme) && Strip(r.value.modelId) != ""
    ensures r.Some? ==> ':' !in r.value.modelType && ':' !in r.value.category
                        && ':' !in r.value.platform && ':' !in r.value.modelId
  {
    if !StartsWith(urn, UrnScheme) then None
    else
      var parts := Split(urn, ':');
      if |parts| != 6 then None
      else if parts[1] != "air" || Strip(parts[5]) == "" then None
      else Some(Urn(parts[2], parts[3], parts[4], parts[5]))
  }

  /** The four fields of a URN, colon-separated, as they follow the scheme. */
  function Fields(u: Urn): string {
    u.modelType + ":" + (u.category + ":" + (u.platform + ":" + u.modelId))
  }

  /** The text of a URN with the given fields. */
  function UrnText(u: Urn): string {
    UrnScheme + Fields(u)
  }

  /** A string that starts with the scheme splits into `urn`, `air` and the rest. */
  lemma UrnHead(urn: string)
    requires StartsWith(urn, UrnScheme)
    ensures var parts := Split(urn, ':');
            |parts| >= 2 && parts[0] == "urn" && parts[1] == "air"
            && parts[2..] == Split(urn[|UrnScheme|..], ':')
  {
    var rest := urn[8..];
    assert urn == urn[..8] + rest;
    assert urn[..8] == "urn" + [':'] + "air" + [':'];
    assert ':' !in "urn" && ':' !in "air";
    SplitTwo("urn", "air", rest, ':');
  }

  /** The first two pieces of a split. */
  lemma SplitTwo(a: string, b: string, rest: string, c: char)
    requires c !in a && c !in b
    ensures Split(a + [c] + b + [c] + rest, c) == [a, b] + Split(rest, c)
  {
    assert a + [c] + b + [c] + rest == a + [c] + (b + [c] + rest);
    SplitAfter(a, c, b + [c] + rest);
    SplitAfter(b, c, rest);
  }

  /** Four colon-free pieces joined by colons split back into the four. */
  lemma SplitFour(a: string, b: string, c: string, d: string)
    requires ':' !in a && ':' !in b && ':' !in c && ':' !in d
    ensures var parts := Split(a + ":" + (b + ":" + (c + ":" + d)), ':');
            |parts| == 4 && parts[0] == a && parts[1] == b && parts[2] == c && parts[3] == d
  {
    SplitThree(b, c, d);
    SplitAfter(a, ':', b + ":" + (c + ":" + d));
  }

  lemma SplitThree(b: string, c: string, d: string)
    requires ':' !in b && ':' !in c && ':' !in d
    ensures var parts := Split(b + ":" + (c + ":" + d), ':');
            |parts| == 3 && parts[0] == b && parts[1] == c && parts[2] == d
  {
    SplitPair(c, d);
    SplitAfter(b, ':', c + ":" + d);
  }

  lemma SplitPair(c: string, d: string)
    requires ':' !in c && ':' !in d
    ensures var parts := Split(c + ":" + d, ':');
            |parts| == 2 && parts[0] == c && parts[1] == d
  {
    assert IndexOf(d, ':') == |d|;
    SplitAfter(c, ':', d);
  }

  /** Joining four pieces with a separator writes them out in order. */
  lemma JoinFour(q: seq<string>, sep: string)
    requires |q| == 4
    ensures Join(q, sep) == q[0] + sep + (q[1] + sep + (q[2] + sep + q[3]))
  {
    assert Join(q[3..], sep) == q[3];
    assert Join(q[2..], sep) == q[2] + sep + Join(q[3..], sep);
    assert Join(q[1..], sep) == q[1] + sep + Join(q[2..], sep);
  }

  /** The text of colon-free fields starts with the scheme and splits into its six parts. */
  lemma UrnTextSplit(u: Urn)
    requires ':' !in u.modelType && ':' !in u.category && ':' !in u.platform && ':' !in u.modelId
    ensures StartsWith(UrnText(u), UrnScheme)
    ensures var parts := Split(UrnText(u), ':');
            |parts| == 6 && parts[0] == "urn" && parts[1] == "air" && parts[2] == u.modelType
            && parts[3] == u.category && parts[4] == u.platform && parts[5] == u.modelId
  {
    var s := UrnText(u);
    assert s[..8] == UrnScheme && s[8..] == Fields(u);
    UrnHead(s);
    SplitFour(u.modelType, u.category, u.platform, u.modelId);
  }

  /**
   * A URN is accepted exactly when it has the scheme, six colon-separated
   * parts and a non-blank model id: the namespace test can never fail.
   */
  lemma ParseUrnAccepts(urn: string)
    ensures ParseUrn(urn).Some? <==>
      StartsWith(urn, UrnScheme) && |Split(urn, ':')| == 6 && Strip(Split(urn, ':')[5]) != ""
  {
    if StartsWith(urn, UrnScheme) {
      UrnHead(urn);
    }
  }

  /** Writing the fields out and parsing them gives them back. */
  lemma ParseUrnText(u: Urn)
    requires ':' !in u.modelType && ':' !in u.category && ':' !in u.platform && ':' !in u.modelId
    requires Strip(u.modelId) != ""
    ensures ParseUrn(UrnText(u)) == Some(u)
  {
    UrnTextSplit(u);
  }

  /** A parsed URN is the text of its fields. */
  lemma UrnTextParsed(urn: string)
    requires ParseUrn(urn).Some?
    ensures UrnText(ParseUrn(urn).value) == urn
  {
    var parts, rest := Split(urn, ':'), urn[8..];
    assert Fields(ParseUrn(urn).value) == rest by {
      UrnHead(urn);
      JoinSplit(rest, ':');
      JoinFour(parts[2..], ":");
    }
    assert urn == urn[..8] + rest;
  }

  /** `is_direct_url`. */
  predicate IsDirectUrl(url: string) {
    StartsWith(url, "http://") || StartsWith(url, "https://")
  }

  /** Only the two web schemes count: an `ftp://` link is not a direct URL, and neither is a URN. */
  lemma DirectUrlSchemes(rest: string, urn: string)
    requires StartsWith(urn, UrnScheme)
    ensures IsDirectUrl("http://" + rest) && IsDirectUrl("https://" + rest)
    ensures !IsDirectUrl("ftp://" + rest)
    ensures !IsDirectUrl(urn)
  {
    assert ("http://" + rest)[..7] == "http://";
    assert ("https://" + rest)[..8] == "https://";
    assert ("ftp://" + rest)[0] == 'f';
    assert urn[0] == 'u';
  }

  // ------------------------------------------------------------------
  // Where a downloaded file goes
  // ------------------------------------------------------------------

  /** The category directory: the category with an `s` added unless it already ends in one. */
  function Plural(category: string): (dir: string)
    ensures EndsWith(dir, "s")
    ensures dir == category <==> EndsWith(category, "s")
    ensures !EndsWith(category, "s") ==> dir == category + "s"
  {
    if EndsWith(category, "s") then category else category + "s"
  }

  /** Pluralising twice is pluralising once. */
  lemma PluralIdempotent(category: string)
    ensures Plural(Plural(category)) == Plural(category)
  {
  }

  /** `get_model_dest_path`: a URN's file goes under its plural category, anything else to the root. */
  function GetModelDestPath(modelsDir: Path, modelSpec: string, filename: string): (p: Path)
    ensures ParseUrn(modelSpec).Some? ==>
      p == modelsDir + [Plural(ParseUrn(modelSpec).value.category), filename]
    ensures ParseUrn(modelSpec).None? ==> p == modelsDir + [filename]
  {
    var parsed := ParseUrn(modelSpec);
    if parsed.Some? then modelsDir + [Plural(parsed.value.category), filename]
    else modelsDir + [filename]
  }

  /** A URN's file lands in the directory of its category, one level below the models directory. */
  lemma DestPathOfUrn(modelsDir: Path, u: Urn, filename: string)
    requires ':' !in u.modelType && ':' !in u.category && ':' !in u.platform && ':' !in u.modelId
    requires Strip(u.modelId) != ""
    ensures GetModelDestPath(modelsDir, UrnText(u), filename) == modelsDir + [Plural(u.category), filename]
  {
    ParseUrnText(u);
  }

  /** A direct link's file lands in the models directory itself. */
  lemma DestPathOfUrl(modelsDir: Path, url: string, filename: string)
    requires IsDirectUrl(url)
    ensures GetModelDestPath(modelsDir, url, filename) == modelsDir + [filename]
  {
    assert url[0] == 'h' && UrnScheme[0] == 'u';
  }

  // ------------------------------------------------------------------
  // Model specifications
  // ------------------------------------------------------------------

  /** The model id and version of `id@version` (or just `id`). */
  function IdAndVersion(idVer: string): (r: (string, Option<string>))
    ensures '@' !in r.0
    ensures r.1.None? <==> '@' !in idVer
    ensures r.1.Some? ==> r.0 + "@" + r.1.value == idVer
    ensures r.1.None? ==> r.0 == idVer
  {
    if '@' in idVer then
      var (id, ver) := SplitOnce(idVer, '@');
      (id, Some(ver))
    else (idVer, None)
  }

  /** The URN branch of `_parse_model_spec`: the segment after `civitai`, or the spec whole. */
  function UrnSpec(s: string): (r: (string, Option<string>))
    ensures r.1.Some? ==> ':' !in r.0 && '@' !in r.0
  {
    var parts := Split(s, ':');
    var civ := IndexOf(parts, "civitai");
    if civ + 1 >= |parts| then (s, None)
    else
      var idVer := parts[civ + 1];
      assert idVer in parts;
      IdAndVersion(idVer)
  }

  /** The `id[:version]` branch of `_parse_model_spec`: a split at the first colon. */
  function ColonSpec(s: string): (r: (string, Option<string>))
    ensures r.1.Some? ==> ':' !in r.0 && r.0 + ":" + r.1.value == s
    ensures r.1.None? <==> ':' !in s
    ensures r.1.None? ==> r.0 == s
  {
    if ':' in s then
      var halves := SplitOnce(s, ':');
      (halves.0, Some(halves.1))
    else (s, None)
  }

  /**
   * `_parse_model_spec`: `(model_id, version_id)` of the stripped spec. A
   * returned version always comes with a colon-free id.
   */
  function ParseModelSpec(spec: string): (r: (string, Option<string>))
    ensures r.1.Some? ==> ':' !in r.0
  {
    var s := Strip(spec);
    if StartsWith(s, UrnScheme) then UrnSpec(s) else ColonSpec(s)
  }

  /** `"1234"` gives the id alone. */
  lemma SpecPlainId(id: string)
    requires ':' !in id && Trimmed(id)
    ensures ParseModelSpec(id) == (id, None)
  {
    assert StartsWith(id, UrnScheme) ==> id[..8][3] in id;
  }

  /** `"1234:9876"` gives the id and the version. */
  lemma SpecIdColonVersion(id: string, version: string)
    requires ':' !in id && Trimmed(id + ":" + version)
    requires !StartsWith(id + ":" + version, UrnScheme)
    ensures ParseModelSpec(id + ":" + version) == (id, Some(version))
  {
    var s := id + ":" + version;
    IndexOfAt(id, ':', version);
    assert s[|id|] == ':' && s[..|id|] == id && s[|id| + 1..] == version;
  }

  /**
   * A Civitai URN `urn:air:<type>:<category>:civitai:<id>[@<version>]` gives
   * its id and version, which is how the downloader consumes what
   * `parse_urn` accepts.
   */
  lemma SpecCivitaiUrn(modelType: string, category: string, idVer: string)
    requires modelType != "civitai" && category != "civitai"
    requires ':' !in modelType && ':' !in category && ':' !in idVer
    requires Trimmed(idVer)
    ensures ParseModelSpec(UrnText(Urn(modelType, category, "civitai", idVer))) == IdAndVersion(idVer)
  {
    var u := Urn(modelType, category, "civitai", idVer);
    var s := UrnText(u);
    var parts := Split(s, ':');
    assert Trimmed(s) by {
      UrnTextTrimmed(u);
    }
    assert StartsWith(s, UrnScheme) && |parts| == 6 && parts[5] == idVer && IndexOf(parts, "civitai") == 4 by {
      UrnTextSplit(u);
      assert |"urn"| != |"civitai"| && |"air"| != |"civitai"|;
      assert parts[0] != "civitai" && parts[1] != "civitai" && parts[2] != "civitai" && parts[3] != "civitai";
      var i := IndexOf(parts, "civitai");
      assert parts[4] == "civitai" && i <= 4;
      assert i != 0 && i != 1 && i != 2 && i != 3;
    }
    SpecOfUrn(s, parts, 4);
  }

  /** A URN text with a stripped model id is itself stripped. */
  lemma UrnTextTrimmed(u: Urn)
    requires Trimmed(u.modelId)
    ensures Trimmed(UrnText(u))
  {
    var s := UrnText(u);
    assert s[0] == 'u';
    assert s[|s| - 1] == if u.modelId == "" then ':' else u.modelId[|u.modelId| - 1];
  }

  /** A stripped URN spec whose `civitai` segment sits at `i` gives the segment after it. */
  lemma SpecOfUrn(s: string, parts: seq<string>, i: nat)
    requires Trimmed(s) && StartsWith(s, UrnScheme)
    requires Split(s, ':') == parts && IndexOf(parts, "civitai") == i && i + 1 < |parts|
    ensures ParseModelSpec(s) == IdAndVersion(parts[i + 1])
  {
  }

  /** A URN missing `civitai`, or ending with it, is returned whole with no version. */
  lemma SpecMalformedUrn(spec: string)
    requires Trimmed(spec) && StartsWith(spec, UrnScheme)
    requires IndexOf(Split(spec, ':'), "civitai") + 1 >= |Split(spec, ':')|
    ensures ParseModelSpec(spec) == (spec, None)
  {
  }

  // ------------------------------------------------------------------
  // Entries from arguments and environment
  // ------------------------------------------------------------------

  /** The options `get_model_entries_from_args` reads. */
  datatype Args = Args(
    destDir: Path,
    checkpoints: string, loras: string, embeddings: string,
    vae: string, controlnets: string, upscalers: string,
    fromEnv: bool)

  /** The categories that have their own option, in the order they are processed. */
  const Categories: seq<string> := ["checkpoints", "loras", "embeddings", "vae", "controlnets", "upscalers"]

  /** The `CIVITAI_` variables that are settings rather than model lists. */
  const SettingVars: set<string> := {"CIVITAI_API_KEY", "CIVITAI_MODEL_DIR", "CIVITAI_DOWNLOAD_THREADS"}

  /** The option string of category `n`. */
  function CategoryList(args: Args, n: nat): string
    requires n < |Categories|
  {
    [args.checkpoints, args.loras, args.embeddings, args.vae, args.controlnets, args.upscalers][n]
  }

  /**
   * The entries of the split pieces of a comma-separated list: each piece
   * stripped, the blank ones dropped, all bound for `dest`.
   */
  function ItemEntries(parts: seq<string>, dest: Path): seq<(string, Path)> {
    if parts == [] then []
    else
      var item := Strip(parts[|parts| - 1]);
      ItemEntries(parts[..|parts| - 1], dest) + (if item != "" then [(item, dest)] else [])
  }

  /** At most one entry per piece, each a stripped, non-blank name bound for `dest`. */
  lemma {:induction false} ItemEntriesShape(parts: seq<string>, dest: Path)
    ensures var entries := ItemEntries(parts, dest);
            |entries| <= |parts|
            && forall k :: 0 <= k < |entries| ==> entries[k].0 != "" && Trimmed(entries[k].0) && entries[k].1 == dest
    decreases |parts|
  {
    if parts != [] {
      var init := parts[..|parts| - 1];
      var item := Strip(parts[|parts| - 1]);
      var prev, last := ItemEntries(init, dest), if item != "" then [(item, dest)] else [];
      ItemEntriesShape(init, dest);
      assert ItemEntries(parts, dest) == prev + last;
      assert forall k :: 0 <= k < |last| ==> last[k].0 != "" && Trimmed(last[k].0) && last[k].1 == dest;
    }
  }

  lemma ItemEntriesPrefix(parts: seq<string>, i: nat, dest: Path)
    requires i < |parts|
    ensures var item := Strip(parts[i]);
            ItemEntries(parts[..i + 1], dest) == ItemEntries(parts[..i], dest) + (if item != "" then [(item, dest)] else [])
  {
    assert parts[..i + 1][..i] == parts[..i];
  }

  /** Listing stripped, comma-free names with commas gives one entry per name, in order. */
  lemma ItemEntriesOfJoin(names: seq<string>, dest: Path)
    requires |names| >= 1
    requires forall k :: 0 <= k < |names| ==> names[k] != "" && Trimmed(names[k]) && ',' !in names[k]
    ensures var entries := ItemEntries(Split(Join(names, ","), ','), dest);
            |entries| == |names| && forall k :: 0 <= k < |names| ==> entries[k] == (names[k], dest)
  {
    SplitJoin(names, ',');
    ItemEntriesClean(names, dest);
  }

  lemma {:induction false} ItemEntriesClean(names: seq<string>, dest: Path)
    requires forall k :: 0 <= k < |names| ==> names[k] != "" && Trimmed(names[k])
    ensures var entries := ItemEntries(names, dest);
            |entries| == |names| && forall k :: 0 <= k < |names| ==> entries[k] == (names[k], dest)
    decreases |names|
  {
    if names != [] {
      var init, last := names[..|names| - 1], names[|names| - 1];
      ItemEntriesClean(init, dest);
      assert Strip(last) == last;
      assert ItemEntries(names, dest) == ItemEntries(init, dest) + [(last, dest)];
    }
  }

  /** The entries of one list, unless it is blank. */
  function ListEntries(list: string, dest: Path): seq<(string, Path)> {
    if Strip(list) == "" then [] else ItemEntries(Split(list, ','), dest)
  }

  /**
   * Every entry is a stripped, non-blank name bound for a direct
   * sub-directory of `destDir` whose name is one of the six categories
   * exactly when `own` holds.
   */
  predicate BoundFor(entries: seq<(string, Path)>, destDir: Path, own: bool) {
    forall k :: 0 <= k < |entries| ==>
      entries[k].0 != "" && Trimmed(entries[k].0)
      && |entries[k].1| == |destDir| + 1 && entries[k].1[..|destDir|] == destDir
      && (entries[k].1[|destDir|] in Categories <==> own)
  }

  lemma BoundForAppend(a: seq<(string, Path)>, b: seq<(string, Path)>, destDir: Path, own: bool)
    requires BoundFor(a, destDir, own) && BoundFor(b, destDir, own)
    ensures BoundFor(a + b, destDir, own)
  {
    forall k | 0 <= k < |a + b|
      ensures (a + b)[k] == if k < |a| then a[k] else b[k - |a|]
    {
    }
  }

  /** The entries of one list bound for `destDir + [cat]`. */
  lemma ListBound(list: string, destDir: Path, cat: string)
    ensures BoundFor(ListEntries(list, destDir + [cat]), destDir, cat in Categories)
  {
    var block := ListEntries(list, destDir + [cat]);
    ItemEntriesShape(Split(list, ','), destDir + [cat]);
    forall k | 0 <= k < |block|
      ensures block[k].1 == destDir + [cat]
    {
    }
    assert (destDir + [cat])[..|destDir|] == destDir;
  }

  /** The entries of the first `n` category options, each bound for its category directory. */
  function ExplicitEntries(args: Args, n: nat): (entries: seq<(string, Path)>)
    requires n <= |Categories|
    ensures BoundFor(entries, args.destDir, true)
  {
    if n == 0 then []
    else
      var cat := Categories[n - 1];
      var block := ListEntries(CategoryList(args, n - 1), args.destDir + [cat]);
      ListBound(CategoryList(args, n - 1), args.destDir, cat);
      BoundForAppend(ExplicitEntries(args, n - 1), block, args.destDir, true);
      ExplicitEntries(args, n - 1) + block
  }

  /** The category a variable names: `CIVITAI_<NAME>` lower-cased, unless it is a setting or has its own option. */
  function EnvCategory(key: string): (cat: Option<string>)
    ensures cat.Some? ==> StartsWith(key, "CIVITAI_") && key !in SettingVars && cat.value !in Categories
  {
    if !StartsWith(key, "CIVITAI_") || key in SettingVars then None
    else
      var cat := Lower(key[8..]);
      if cat in Categories then None else Some(cat)
  }

  /** The entries of one environment variable. */
  function VarEntries(key: string, value: string, destDir: Path): seq<(string, Path)> {
    match EnvCategory(key)
    case None => []
    case Some(cat) => ListEntries(Strip(value), destDir + [cat])
  }

  /** The entries of the environment scan, variable by variable. */
  function EnvEntries(env: seq<(string, string)>, destDir: Path): (entries: seq<(string, Path)>)
    ensures BoundFor(entries, destDir, false)
  {
    if env == [] then []
    else
      var (key, value) := env[|env| - 1];
      var block := VarEntries(key, value, destDir);
      VarBound(key, value, destDir);
      BoundForAppend(EnvEntries(env[..|env| - 1], destDir), block, destDir, false);
      EnvEntries(env[..|env| - 1], destDir) + block
  }

  /** A variable that names a category contributes entries for a category without its own option. */
  lemma VarBound(key: string, value: string, destDir: Path)
    ensures BoundFor(VarEntries(key, value, destDir), destDir, false)
  {
    if EnvCategory(key).Some? {
      ListBound(Strip(value), destDir, EnvCategory(key).value);
    }
  }

  lemma EnvEntriesPrefix(env: seq<(string, string)>, i: nat, destDir: Path)
    requires i < |env|
    ensures EnvEntries(env[..i + 1], destDir) == EnvEntries(env[..i], destDir) + VarEntries(env[i].0, env[i].1, destDir)
  {
    assert env[..i + 1][..i] == env[..i];
  }

  /** The inner loop: the items of a list appended to `entries`. */
  method AppendItems(entries: seq<(string, Path)>, list: string, dest: Path) returns (out: seq<(string, Path)>)
    ensures out == entries + ItemEntries(Split(list, ','), dest)
  {
    out := entries;
    var parts := Split(list, ',');
    for i := 0 to |parts|
      invariant out == entries + ItemEntries(parts[..i], dest)
    {
      var item := Strip(parts[i]);
      ghost var before := ItemEntries(parts[..i], dest);
      ItemEntriesPrefix(parts, i, dest);
      if item != "" {
        AppendAssociates(entries, before, [(item, dest)]);
        out := out + [(item, dest)];
      }
    }
    assert parts[..|parts|] == parts;
  }

  /**
   * `get_model_entries_from_args`, with `os.environ.items()` as `env`: the
   * category options in order, then (when asked) the remaining `CIVITAI_`
   * variables in the order the environment lists them.
   */
  method GetModelEntriesFromArgs(args: Args, env: seq<(string, string)>) returns (entries: seq<(string, Path)>)
    ensures entries == ExplicitEntries(args, |Categories|) + (if args.fromEnv then EnvEntries(env, args.destDir) else [])
  {
    entries := [];
    for n := 0 to |Categories|
      invariant entries == ExplicitEntries(args, n)
    {
      var list := CategoryList(args, n);
      ExplicitStep(args, n);
      if Strip(list) == "" {
        continue;
      }
      entries := AppendItems(entries, list, args.destDir + [Categories[n]]);
    }
    if args.fromEnv {
      entries := ScanEnvironment(entries, env, args.destDir);
    }
  }

  /** The environment loop of `get_model_entries_from_args`. */
  method ScanEnvironment(entries: seq<(string, Path)>, env: seq<(string, string)>, destDir: Path)
    returns (out: seq<(string, Path)>)
    ensures out == entries + EnvEntries(env, destDir)
  {
    out := entries;
    for i := 0 to |env|
      invariant out == entries + EnvEntries(env[..i], destDir)
    {
      EnvEntriesPrefix(env, i, destDir);
      var (key, value) := env[i];
      if !StartsWith(key, "CIVITAI_") || key in SettingVars {
        continue;
      }
      var cat := Lower(key[8..]);
      if cat in Categories {
        continue;
      }
      var raw := Strip(value);
      if raw == "" {
        continue;
      }
      AppendAssociates(entries, EnvEntries(env[..i], destDir), ItemEntries(Split(raw, ','), destDir + [cat]));
      out := AppendItems(out, raw, destDir + [cat]);
    }
    assert env[..|env|] == env;
  }

  /** Category `n` adds the entries of its option to those before it. */
  lemma ExplicitStep(args: Args, n: nat)
    requires n < |Categories|
    ensures ExplicitEntries(args, n + 1)
            == ExplicitEntries(args, n) + ListEntries(CategoryList(args, n), args.destDir + [Categories[n]])
  {
  }

  /** Lower-casing undoes upper-casing for a name without capitals. */
  lemma LowerUpper(name: string)
    requires forall k :: 0 <= k < |name| ==> !('A' <= name[k] <= 'Z')
    ensures Lower(Upper(name)) == name
  {
  }

  /**
   * The variable a resolver exports for a category without its own option is
   * read back by the scan, into that category's directory; the variable of a
   * category with an option is skipped.
   */
  lemma ExportedVariableRead(cat: string)
    requires forall k :: 0 <= k < |cat| ==> !('A' <= cat[k] <= 'Z')
    requires VarName(cat) !in SettingVars
    ensures EnvCategory(VarName(cat)) == (if cat in Categories then None else Some(cat))
  {
    var key := VarName(cat);
    assert key[8..] == Upper(cat);
    LowerUpper(cat);
  }

  // ------------------------------------------------------------------
  // Download threads
  // ------------------------------------------------------------------

  predicate IsDigits(s: string) {
    s != [] && forall k :: 0 <= k < |s| ==> '0' <= s[k] <= '9'
  }

  /** The number a string of decimal digits denotes. */
  function DigitsValue(s: string): nat
    requires forall k :: 0 <= k < |s| ==> '0' <= s[k] <= '9'
  {
    if s == [] then 0 else DigitsValue(s[..|s| - 1]) * 10 + (s[|s| - 1] as int - '0' as int)
  }

  /** A decimal numeral with at most one sign, as `int()` reads it once stripped. */
  function Numeral(t: string): (r: Option<int>)
    ensures r.Some? ==> t != ""
  {
    if t != [] && (t[0] == '-' || t[0] == '+') then
      var digits := t[1..];
      if !IsDigits(digits) then None
      else if t[0] == '-' then Some(-(DigitsValue(digits) as int))
      else Some(DigitsValue(digits))
    else if IsDigits(t) then Some(DigitsValue(t))
    else None
  }

  /**
   * Python's `int(s)` on a string: surrounding white space is dropped; `None`
   * is the `ValueError` for anything that is not a numeral.
   */
  function ParseInt(s: string): (r: Option<int>)
    ensures r.Some? ==> Strip(s) != ""
  {
    Numeral(Strip(s))
  }

  /** `str(n)` reads back as `n`. */
  lemma {:induction false} DigitsOfNat(n: nat)
    ensures IsDigits(NatToString(n)) && DigitsValue(NatToString(n)) == n
    decreases n
  {
    var s := NatToString(n);
    if n >= 10 {
      DigitsOfNat(n / 10);
      assert s[..|s| - 1] == NatToString(n / 10);
    }
  }

  /** A stripped numeral parses to its value. */
  lemma ParseIntDigits(t: string)
    requires Trimmed(t) && IsDigits(t)
    ensures ParseInt(t) == Some(DigitsValue(t) as int)
  {
    assert Numeral(t) == Some(DigitsValue(t) as int);
  }

  /** A stripped numeral after a minus sign parses to its negation. */
  lemma ParseIntNegated(t: string)
    requires Trimmed(t) && IsDigits(t)
    ensures ParseInt("-" + t) == Some(-(DigitsValue(t) as int))
  {
    SignedTrimmed(t);
    NumeralNegated(t);
  }

  /** A minus sign before a stripped numeral keeps it stripped. */
  lemma SignedTrimmed(t: string)
    requires Trimmed(t) && t != []
    ensures Trimmed("-" + t)
  {
    var m := "-" + t;
    assert m[0] == '-' && m[|m| - 1] == t[|t| - 1];
  }

  /** A minus sign and digits is the negated value. */
  lemma NumeralNegated(t: string)
    requires IsDigits(t)
    ensures Numeral("-" + t) == Some(-(DigitsValue(t) as int))
  {
    assert ("-" + t)[1..] == t;
  }

  /** `str(n)` is a stripped numeral worth `n`. */
  lemma NatNumeral(n: nat)
    ensures Trimmed(NatToString(n)) && IsDigits(NatToString(n)) && DigitsValue(NatToString(n)) == n
  {
    var s := NatToString(n);
    DigitsOfNat(n);
    assert '0' <= s[0] <= '9' && '0' <= s[|s| - 1] <= '9';
  }

  /** A number parses to itself. */
  lemma ParseIntOfNat(n: nat)
    ensures ParseInt(NatToString(n)) == Some(n)
  {
    NatNumeral(n);
    ParseIntDigits(NatToString(n));
  }

  /** The value used when `CIVITAI_DOWNLOAD_THREADS` is not set. */
  const DefaultThreads: string := "4"

  /**
   * `get_download_threads`, given the value of `CIVITAI_DOWNLOAD_THREADS`
   * when it is set: at least one thread; `None` when `int()` raises.
   */
  function GetDownloadThreads(setting: Option<string>): (r: Option<nat>)
    ensures r.Some? ==> r.value >= 1
    ensures r.None? <==> ParseInt(setting.GetOr(DefaultThreads)).None?
  {
    var n := ParseInt(setting.GetOr(DefaultThreads));
    if n.None? then None else Some(if n.value < 1 then 1 else n.value)
  }

  /** Unset gives four threads; `"0"` gives one. */
  lemma DownloadThreadsDefault()
    ensures GetDownloadThreads(None) == Some(4)
    ensures GetDownloadThreads(Some("0")) == Some(1)
  {
    ParseIntDigit('4');
    ParseIntDigit('0');
  }

  /** A single decimal digit parses to its value. */
  lemma ParseIntDigit(c: char)
    requires '0' <= c <= '9'
    ensures ParseInt([c]) == Some(c as int - '0' as int)
  {
    assert Trimmed([c]) by {
      assert !IsSpace(c);
    }
    assert DigitsValue([c]) == c as int - '0' as int by {
      assert [c][..0] == [];
    }
    ParseIntDigits([c]);
  }

  /** A positive count is taken as it is. */
  lemma DownloadThreadsCount(n: nat)
    requires n >= 1
    ensures GetDownloadThreads(Some(NatToString(n))) == Some(n)
  {
    ParseIntOfNat(n);
  }

  /** A negative count gives one thread. */
  lemma DownloadThreadsNegative(numeral: string)
    requires Trimmed(numeral) && IsDigits(numeral)
    ensures GetDownloadThreads(Some("-" + numeral)) == Some(1)
  {
    ParseIntNegated(numeral);
  }

  /** A blank or non-numeric setting makes `int()` raise. */
  lemma DownloadThreadsFails(setting: string)
    requires forall c :: c in setting ==> !('0' <= c <= '9')
    ensures GetDownloadThreads(Some(setting)) == None
  {
    StripInside(setting);
    NumeralNeedsDigit(Strip(setting));
  }

  /** A text without a digit is no numeral. */
  lemma NumeralNeedsDigit(t: string)
    requires forall c :: c in t ==> !('0' <= c <= '9')
    ensures Numeral(t) == None
  {
    if t != [] {
      assert t[0] in t;
      if |t| > 1 {
        assert t[1..][0] in t;
      }
    }
  }

  /** Every character of `Strip(s)` is a character of `s`. */
  lemma StripInside(s: string)
    ensures forall c :: c in Strip(s) ==> c in s
  {
    var a := TrimStart(s);
    var b := TrimEnd(a);
    assert forall c :: c in b ==> c in a by {
      forall c | c in b ensures c in a {
        var k :| 0 <= k < |b| && b[k] == c;
        assert a[k] == c;
      }
    }
    assert forall c :: c in a ==> c in s by {
      forall c | c in a ensures c in s {
        var k :| 0 <= k < |a| && a[k] == c;
        assert s[|s| - |a| + k] == c;
      }
    }
  }

  // ------------------------------------------------------------------
  // Version and files
  // ------------------------------------------------------------------

  /** `str(v.get("id")) == version_id`. */
  predicate VersionIs(v: Value, versionId: string) {
    ToStr(Get(v, "id")) == versionId
  }

  /** Position of the first version with the requested id, or `|versions|`. */
  function FirstVersion(versions: seq<Value>, versionId: string): (i: nat)
    ensures i <= |versions|
    ensures i < |versions| ==> VersionIs(versions[i], versionId)
    ensures forall j :: 0 <= j < i ==> !VersionIs(versions[j], versionId)
  {
    if versions == [] then 0
    else if VersionIs(versions[0], versionId) then 0
    else 1 + FirstVersion(versions[1..], versionId)
  }

  /** `if version_id:`, the version was asked for. */
  predicate Requested(versionId: Option<string>) {
    versionId.Some? && versionId.value != ""
  }

  /**
   * The `v.get` calls of the search do not raise: every version the search
   * looks at, up to the first match, is a mapping.
   */
  predicate SearchOk(versions: seq<Value>, versionId: Option<string>) {
    Requested(versionId) ==>
      forall j :: 0 <= j < |versions| && j <= FirstVersion(versions, versionId.value) ==> versions[j].Map?
  }

  /**
   * The version whose files are fetched: none for a model without versions;
   * the first version with the requested id; otherwise the latest, which the
   * API lists first.
   */
  function ChosenVersion(versions: seq<Value>, versionId: Option<string>): (r: Option<Value>)
    ensures r.Some? <==> versions != []
    ensures r.Some? ==> r.value in versions
  {
    if versions == [] then None
    else if Requested(versionId) && FirstVersion(versions, versionId.value) < |versions| then
      Some(versions[FirstVersion(versions, versionId.value)])
    else Some(versions[0])
  }

  /** The version search: `next((v for v in versions if ...), None)`, then the fallback to the latest. */
  method SelectVersion(versions: seq<Value>, versionId: Option<string>) returns (chosen: Option<Value>)
    requires SearchOk(versions, versionId)
    ensures chosen == ChosenVersion(versions, versionId)
  {
    if versions == [] {
      return None;
    }
    chosen := None;
    if versionId.Some? && versionId.value != "" {
      var i := 0;
      while i < |versions|
        invariant 0 <= i <= |versions|
        invariant forall j :: 0 <= j < i ==> !VersionIs(versions[j], versionId.value)
      {
        if ToStr(Get(versions[i], "id")) == versionId.value {
          chosen := Some(versions[i]);
          break;
        }
        i := i + 1;
      }
    }
    if chosen.None? {
      chosen := Some(versions[0]);
    }
  }

  /** The first version with the requested id is the one fetched. */
  lemma PinnedVersion(versions: seq<Value>, versionId: string, k: nat)
    requires versionId != "" && k < |versions| && VersionIs(versions[k], versionId)
    requires forall j :: 0 <= j < k ==> !VersionIs(versions[j], versionId)
    ensures ChosenVersion(versions, Some(versionId)) == Some(versions[k])
  {
    FirstVersionIs(versions, versionId, k);
  }

  lemma {:induction false} FirstVersionIs(versions: seq<Value>, versionId: string, k: nat)
    requires k < |versions| && VersionIs(versions[k], versionId)
    requires forall j :: 0 <= j < k ==> !VersionIs(versions[j], versionId)
    ensures FirstVersion(versions, versionId) == k
  {
    if k > 0 {
      FirstVersionIs(versions[1..], versionId, k - 1);
    }
  }

  /** No version asked for, an empty id, or an id no version has: the latest is fetched. */
  lemma LatestVersion(versions: seq<Value>, versionId: Option<string>)
    requires versions != []
    requires Requested(versionId) ==> forall v :: v in versions ==> !VersionIs(v, versionId.value)
    ensures ChosenVersion(versions, versionId) == Some(versions[0])
  {
  }

  /** With integer ids, as the API sends them, asking for `str(n)` finds exactly the version with id `n`. */
  lemma IntVersionId(v: Value, n: nat)
    requires Get(v, "id").Int?
    ensures VersionIs(v, NatToString(n)) <==> Get(v, "id") == Int(n)
  {
    var i := Get(v, "id").i;
    if i >= 0 {
      if NatToString(i) == NatToString(n) {
        NatToStringInjective(i, n);
      }
    } else {
      assert IntToString(i)[0] == '-';
      DigitsOfNat(n);
    }
  }

  /** A file is fetched when it has both a download URL and a name. */
  predicate Fetched(file: Value) {
    Truthy(Get(file, "downloadUrl")) && Truthy(Get(file, "name"))
  }

  /** Where the loop saves a file: its `downloadUrl`, to `dest_dir / name`. */
  function Target(file: Value, destDir: Path): (Value, Path) {
    (Get(file, "downloadUrl"), destDir + [ToStr(Get(file, "name"))])
  }

  /** What one file adds to the plan: its target when it is fetched, nothing otherwise. */
  function Planned(file: Value, destDir: Path): seq<(Value, Path)> {
    if Fetched(file) then [Target(file, destDir)] else []
  }

  /** The `(url, destination)` of each fetched file, in the order the version lists them. */
  function Downloads(files: seq<Value>, destDir: Path): (plan: seq<(Value, Path)>)
    ensures |plan| <= |files|
    ensures forall k :: 0 <= k < |plan| ==>
      Truthy(plan[k].0) && |plan[k].1| == |destDir| + 1 && plan[k].1[..|destDir|] == destDir
      && plan[k].1[|destDir|] != ""
    ensures (forall k :: 0 <= k < |files| ==> !Fetched(files[k])) ==> plan == []
  {
    if files == [] then []
    else Downloads(files[..|files| - 1], destDir) + Planned(files[|files| - 1], destDir)
  }

  lemma DownloadsPrefix(files: seq<Value>, i: nat, destDir: Path)
    requires i < |files|
    ensures Downloads(files[..i + 1], destDir) == Downloads(files[..i], destDir) + Planned(files[i], destDir)
  {
    assert files[..i + 1][..i] == files[..i];
  }

  /** The plan of two file lists one after the other is the two plans one after the other. */
  lemma {:induction false} DownloadsAppend(xs: seq<Value>, ys: seq<Value>, destDir: Path)
    ensures Downloads(xs + ys, destDir) == Downloads(xs, destDir) + Downloads(ys, destDir)
    decreases |ys|
  {
    if ys == [] {
      assert xs + ys == xs;
    } else {
      var init := ys[..|ys| - 1];
      DownloadsStep(xs, ys, destDir);
      DownloadsAppend(xs, init, destDir);
      AppendAssociates(Downloads(xs, destDir), Downloads(init, destDir), Planned(ys[|ys| - 1], destDir));
    }
  }

  /** Both sides of the append lemma with the last file of `ys` split off. */
  lemma DownloadsStep(xs: seq<Value>, ys: seq<Value>, destDir: Path)
    requires ys != []
    ensures var last := Planned(ys[|ys| - 1], destDir);
            Downloads(xs + ys, destDir) == Downloads(xs + ys[..|ys| - 1], destDir) + last
            && Downloads(ys, destDir) == Downloads(ys[..|ys| - 1], destDir) + last
  {
    var init, last := ys[..|ys| - 1], ys[|ys| - 1];
    assert ys == init + [last];
    assert xs + ys == (xs + init) + [last];
    DownloadsSnoc(xs + ys, xs + init, last, destDir);
    DownloadsSnoc(ys, init, last, destDir);
  }

  lemma DownloadsSnoc(zs: seq<Value>, init: seq<Value>, last: Value, destDir: Path)
    requires zs == init + [last]
    ensures Downloads(zs, destDir) == Downloads(init, destDir) + Planned(last, destDir)
  {
    assert zs[..|zs| - 1] == init;
  }

  /** The plan is the plan of the files before `k`, then file `k`'s target if it is fetched, then the rest. */
  lemma DownloadsSplit(files: seq<Value>, k: nat, destDir: Path)
    requires k < |files|
    ensures Downloads(files, destDir)
            == Downloads(files[..k], destDir) + (Planned(files[k], destDir) + Downloads(files[k + 1..], destDir))
  {
    var before, rest, after := files[..k], files[k..], files[k + 1..];
    assert files == before + rest;
    assert rest == [files[k]] + after;
    DownloadsAppend(before, rest, destDir);
    DownloadsAppend([files[k]], after, destDir);
    DownloadsSnoc([files[k]], [], files[k], destDir);
    assert Downloads([], destDir) == [];
    assert Downloads([files[k]], destDir) == Planned(files[k], destDir);
  }

  /** A file with both a download URL and a name is downloaded to `destDir / name`. */
  lemma DownloadsFetched(files: seq<Value>, k: nat, destDir: Path)
    requires k < |files| && Fetched(files[k])
    ensures Target(files[k], destDir) in Downloads(files, destDir)
  {
    DownloadsSplit(files, k, destDir);
  }

  /** A file lacking either is skipped: the plan is that of the other files. */
  lemma DownloadsSkipped(files: seq<Value>, k: nat, destDir: Path)
    requires k < |files| && !Fetched(files[k])
    ensures Downloads(files, destDir) == Downloads(files[..k] + files[k + 1..], destDir)
  {
    DownloadsSplit(files, k, destDir);
    DownloadsAppend(files[..k], files[k + 1..], destDir);
  }

  /** Every planned download is the target of some fetched file. */
  lemma {:induction false} DownloadsFrom(files: seq<Value>, destDir: Path)
    ensures forall j :: 0 <= j < |Downloads(files, destDir)| ==>
              exists k :: 0 <= k < |files| && Fetched(files[k]) && Downloads(files, destDir)[j] == Target(files[k], destDir)
    decreases |files|
  {
    if files == [] {
      assert Downloads(files, destDir) == [];
    } else {
      var n := |files| - 1;
      var init := files[..n];
      DownloadsFrom(init, destDir);
      DownloadsSnoc(files, init, files[n], destDir);
      var prev, plan := Downloads(init, destDir), Downloads(files, destDir);
      assert plan == prev + Planned(files[n], destDir);
      forall j | 0 <= j < |plan|
        ensures exists k :: 0 <= k < |files| && Fetched(files[k]) && plan[j] == Target(files[k], destDir)
      {
        if j < |prev| {
          var k :| 0 <= k < |init| && Fetched(init[k]) && prev[j] == Target(init[k], destDir);
          assert files[k] == init[k] && plan[j] == prev[j];
          assert 0 <= k < |files| && Fetched(files[k]) && plan[j] == Target(files[k], destDir);
        } else {
          assert Fetched(files[n]) && plan[j] == Target(files[n], destDir);
        }
      }
    }
  }

  /** The files of the chosen version that the loop downloads, as far as the case analysis goes. */
  method PlanDownloads(version: Value, destDir: Path) returns (plan: seq<(Value, Path)>)
    requires version.Map? && Iterable(GetOr(version, "files", EmptyList))
    requires forall f :: f in Iterate(GetOr(version, "files", EmptyList)) ==> f.Map? && (Fetched(f) ==> Get(f, "name").Str?)
    ensures plan == Downloads(Iterate(GetOr(version, "files", EmptyList)), destDir)
  {
    var files := Iterate(GetOr(version, "files", EmptyList));
    plan := [];
    for i := 0 to |files|
      invariant plan == Downloads(files[..i], destDir)
    {
      DownloadsPrefix(files, i, destDir);
      var file := files[i];
      var url := Get(file, "downloadUrl");
      var name := Get(file, "name");
      if !Truthy(url) || !Truthy(name) {
        continue;
      }
      plan := plan + [(url, destDir + [ToStr(name)])];
    }
    assert files[..|files|] == files;
  }
}
