/**
 * Configuration: the built-in defaults, the recursive merge of a user
 * configuration over them, and the dotted-path lookup `get("urls.base_url")`.
 * A YAML document is modelled by the `Value` datatype below (mappings with
 * text keys, lists and scalars); reading the file is a parameter: the parsed
 * mapping if the file exists, `None` otherwise.
 */
module Configuration {
  import opened Wrappers
  import opened Strings

  /** A parsed YAML/JSON value. */
  datatype Value =
    | Null
    | Bool(b: bool)
    | Int(i: int)
    | Real(r: real)
    | Str(s: string)
    | List(items: seq<Value>)
    | Dict(entries: map<string, Value>)

  type Section = map<string, Value>

  // ---------------------------------------------------------------------------
  // Defaults
  // ---------------------------------------------------------------------------

  const DefaultUrls: Section := map[
    "base_url" := Str("https://jamabandi.nic.in"),
    "form_path" := Str("/PublicNakal/CreateNewRequest"),
    "login_path" := Str("/PublicNakal/login.aspx")]

  const DefaultHttp: Section := map[
    "user_agent" := Str("Mozilla/5.0 (Windows NT 10.0; Win64; x64; rv:147.0) Gecko/20100101 Firefox/147.0"),
    "timeout" := Int(30),
    "verify_ssl" := Bool(false)]

  const DefaultDelays: Section := map[
    "min_delay" := Real(1.0),
    "max_delay" := Real(2.5),
    "form_postback_sleep" := Real(0.25)]

  const DefaultRetry: Section := map[
    "max_retries" := Int(3),
    "retry_delay" := Real(5.0)]

  const DefaultConcurrency: Section := map[
    "max_workers" := Int(8),
    "default_workers" := Int(3)]

  const DefaultPaths: Section := map[
    "downloads_dir" := Str("downloads"),
    "logs_dir" := Str("logs"),
    "progress_file" := Str("progress.json")]

  const DefaultLogging: Section := map[
    "level" := Str("INFO"),
    "max_file_size_mb" := Int(10),
    "backup_count" := Int(5)]

  /** `DEFAULTS`: the built-in configuration, section by section. */
  const Defaults: Section := map[
    "urls" := Dict(DefaultUrls),
    "http" := Dict(DefaultHttp),
    "delays" := Dict(DefaultDelays),
    "retry" := Dict(DefaultRetry),
    "concurrency" := Dict(DefaultConcurrency),
    "paths" := Dict(DefaultPaths),
    "logging" := Dict(DefaultLogging)]

  // ---------------------------------------------------------------------------
  // Deep merge
  // ---------------------------------------------------------------------------

  /**
   * The entry `_deep_merge` stores under a key present in `over`: the
   * recursive merge when both sides are mappings, the override value otherwise.
   */
  function MergeEntry(base: Section, over: Section, k: string): Value
    requires k in over
    decreases Dict(over), 0
  {
    if k in base && base[k].Dict? && over[k].Dict? then Dict(Merged(base[k].entries, over[k].entries))
    else over[k]
  }

  /** `_deep_merge(base, over)` as a value: every key of either side, the override winning. */
  function Merged(base: Section, over: Section): (r: Section)
    ensures r.Keys == base.Keys + over.Keys
    decreases Dict(over), 1
  {
    map k | k in base.Keys + over.Keys :: if k in over then MergeEntry(base, over, k) else base[k]
  }

  /**
   * `_deep_merge`: starting from (a copy of) `base`, each key of `override` is
   * merged in turn.
   */
  method DeepMerge(base: Section, over: Section) returns (result: Section)
    ensures result == Merged(base, over)
    decreases Dict(over)
  {
    result := base;
    var todo := over.Keys;
    while todo != {}
      invariant todo <= over.Keys
      invariant result.Keys == base.Keys + (over.Keys - todo)
      invariant forall k :: k in result ==> result[k] == if k in over && k !in todo then MergeEntry(base, over, k) else base[k]
      decreases todo
    {
      var k :| k in todo;
      var value := over[k];
      if k in result && result[k].Dict? && value.Dict? {
        assert result[k] == base[k];
        var inner := DeepMerge(result[k].entries, value.entries);
        result := result[k := Dict(inner)];
      } else {
        result := result[k := value];
      }
      todo := todo - {k};
    }
    assert over.Keys - todo == over.Keys;
  }

  /** Merging in an empty override gives back the base. */
  lemma MergeEmpty(base: Section)
    ensures Merged(base, map[]) == base
  {
  }

  /** Merging into an empty base gives back the override. */
  lemma MergeIntoEmpty(over: Section)
    ensures Merged(map[], over) == over
  {
  }

  /** A key the override does not mention keeps the base's value. */
  lemma MergeKeepsBase(base: Section, over: Section, k: string)
    requires k in base && k !in over
    ensures k in Merged(base, over) && Merged(base, over)[k] == base[k]
  {
  }

  /** A key whose override value is not a mapping, or whose base value is not one, takes the override value. */
  lemma MergeOverrides(base: Section, over: Section, k: string)
    requires k in over && !(k in base && base[k].Dict? && over[k].Dict?)
    ensures k in Merged(base, over) && Merged(base, over)[k] == over[k]
  {
  }

  /** Merging a configuration over itself changes nothing. */
  lemma {:induction false} MergeSelf(base: Section)
    ensures Merged(base, base) == base
    decreases Dict(base)
  {
    forall k | k in base && base[k].Dict?
      ensures Merged(base[k].entries, base[k].entries) == base[k].entries
    {
      MergeSelf(base[k].entries);
    }
  }

  /** Applying the same override twice is the same as applying it once. */
  lemma {:induction false} MergeTwice(base: Section, over: Section)
    ensures Merged(Merged(base, over), over) == Merged(base, over)
    decreases Dict(over)
  {
    var m := Merged(base, over);
    forall k | k in over && over[k].Dict?
      ensures k in m && m[k].Dict? && Merged(m[k].entries, over[k].entries) == m[k].entries
    {
      if k in base && base[k].Dict? {
        MergeTwice(base[k].entries, over[k].entries);
      } else {
        MergeSelf(over[k].entries);
      }
    }
  }

  // ---------------------------------------------------------------------------
  // Dotted lookup
  // ---------------------------------------------------------------------------

  /** The value reached by following `keys` from `v`, or `None` when a key is missing or a step is not a mapping. */
  function Lookup(v: Value, keys: seq<string>): Option<Value>
  {
    if keys == [] then Some(v)
    else if v.Dict? && keys[0] in v.entries then Lookup(v.entries[keys[0]], keys[1..])
    else None
  }

  /** `get(key, default)`: the dot-separated path looked up in the data, or `default`. */
  function GetSpec(data: Section, key: string, default: Value): Value {
    Lookup(Dict(data), Split(key, '.')).GetOr(default)
  }

  /** The loop of `Config.get`, walking one path segment at a time. */
  method Get(data: Section, key: string, default: Value) returns (r: Value)
    ensures r == GetSpec(data, key, default)
  {
    var keys := Split(key, '.');
    var value := Dict(data);
    var i := 0;
    while i < |keys|
      invariant 0 <= i <= |keys|
      invariant Lookup(Dict(data), keys) == Lookup(value, keys[i..])
    {
      assert keys[i..][0] == keys[i] && keys[i..][1..] == keys[i + 1..];
      var k := keys[i];
      if value.Dict? && k in value.entries {
        value := value.entries[k];
      } else {
        return default;
      }
      i := i + 1;
    }
    assert keys[i..] == [];
    return value;
  }

  /** Looking up `p + q` is looking up `p`, then `q` from there. */
  lemma {:induction false} LookupAppend(v: Value, p: seq<string>, q: seq<string>)
    ensures Lookup(v, p + q) == match Lookup(v, p) case Some(w) => Lookup(w, q) case None => None
    decreases |p|
  {
    if p == [] {
      assert p + q == q;
    } else {
      assert (p + q)[0] == p[0] && (p + q)[1..] == p[1..] + q;
      if v.Dict? && p[0] in v.entries {
        LookupAppend(v.entries[p[0]], p[1..], q);
      }
    }
  }

  /**
   * User values win: a path that leads in the override to a value that is not
   * a mapping leads to the same value in the merge.
   */
  lemma {:induction false} MergeLookupOverride(base: Section, over: Section, path: seq<string>, v: Value)
    requires path != [] && Lookup(Dict(over), path) == Some(v) && !v.Dict?
    ensures Lookup(Dict(Merged(base, over)), path) == Some(v)
    decreases |path|
  {
    var k := path[0];
    var m := Merged(base, over);
    assert k in over;
    if k in base && base[k].Dict? && over[k].Dict? {
      MergeLookupOverride(base[k].entries, over[k].entries, path[1..], v);
    } else {
      MergeOverrides(base, over, k);
      assert Lookup(Dict(m), path) == Lookup(m[k], path[1..]);
    }
  }

  /** Defaults the override does not mention remain: a path whose first key is not overridden reads from the base. */
  lemma MergeLookupDefault(base: Section, over: Section, path: seq<string>)
    requires path != [] && path[0] !in over
    ensures Lookup(Dict(Merged(base, over)), path) == Lookup(Dict(base), path)
  {
  }

  // ---------------------------------------------------------------------------
  // The configuration object
  // ---------------------------------------------------------------------------

  /** `_load`: the defaults, merged with the user's mapping when the file exists. */
  function Loaded(user: Option<Section>): Section {
    match user
    case None => Defaults
    case Some(u) => Merged(Defaults, u)
  }

  /** Without a file the data is the defaults; with one, user values win and unmentioned defaults stay. */
  lemma LoadedMeaning(user: Option<Section>)
    ensures user.None? ==> Loaded(user) == Defaults
    ensures user.Some? ==> Loaded(user).Keys == Defaults.Keys + user.value.Keys
    ensures user.Some? ==> forall k :: k in Defaults && k !in user.value ==> Loaded(user)[k] == Defaults[k]
    ensures user == Some(map[]) ==> Loaded(user) == Defaults
  {
    if user.Some? {
      MergeEmpty(Defaults);
    }
  }

  /** `get("urls.base_url")` on the defaults is the built-in site address. */
  lemma DefaultBaseUrl()
    ensures GetSpec(Defaults, "urls.base_url", Null) == Str("https://jamabandi.nic.in")
  {
    var key := "urls.base_url";
    SplitKey(key);
    assert Lookup(Dict(Defaults), ["urls", "base_url"]) == Some(Str("https://jamabandi.nic.in")) by {
      BaseUrlPath();
    }
  }

  lemma SplitKey(key: string)
    requires key == "urls.base_url"
    ensures Split(key, '.') == ["urls", "base_url"]
  {
    assert key == "urls" + ['.'] + "base_url";
    SplitCons("urls", "base_url", '.');
    SplitNoSep("base_url", '.');
  }

  lemma BaseUrlPath()
    ensures Lookup(Dict(Defaults), ["urls", "base_url"]) == Some(Str("https://jamabandi.nic.in"))
  {
    var path := ["urls", "base_url"];
    assert "urls" in Defaults && Defaults["urls"] == Dict(DefaultUrls);
    assert "base_url" in DefaultUrls && DefaultUrls["base_url"] == Str("https://jamabandi.nic.in");
    assert path[1..] == ["base_url"] && path[1..][1..] == [];
    assert Lookup(Dict(DefaultUrls), ["base_url"]) == Some(Str("https://jamabandi.nic.in"));
  }

  /** `get` of a section name yields the whole section; a missing one yields the default. */
  lemma GetSection(data: Section, name: string, default: Value)
    requires '.' !in name
    ensures name in data ==> GetSpec(data, name, default) == data[name]
    ensures name !in data ==> GetSpec(data, name, default) == default
  {
    SplitNoSep(name, '.');
    assert [name][0] == name && [name][1..] == [];
    assert GetSpec(data, name, default) == Lookup(Dict(data), [name]).GetOr(default);
    if name !in data {
      assert Lookup(Dict(data), [name]) == None;
      assert None.GetOr(default) == default;
    }
  }

  /**
   * The `Config` object: its data and the path it loads from. The file's
   * contents are passed in: the parsed mapping when the file exists.
   */
  class Config {
    var data: Section
    var configPath: Option<string>

    constructor (configPath: Option<string>, user: Option<Section>)
      ensures this.configPath == configPath
      ensures data == Loaded(user)
    {
      this.configPath := configPath;
      data := Loaded(user);
    }

    /** `_load`. */
    method Load(user: Option<Section>)
      modifies this
      ensures data == Loaded(user) && configPath == old(configPath)
    {
      data := Defaults;
      if user.Some? {
        data := DeepMerge(Defaults, user.value);
      }
    }

    /** `reload(path)`: a new path replaces the old one only when one is given. */
    method Reload(newPath: Option<string>, user: Option<Section>)
      modifies this
      ensures configPath == if newPath.Some? && newPath.value != [] then newPath else old(configPath)
      ensures data == Loaded(user)
    {
      if newPath.Some? && newPath.value != [] {
        configPath := newPath;
      }
      Load(user);
    }

    /** The section properties (`urls`, `http`, ...): the named section, or an empty one. */
    function SectionOf(name: string): (r: Value)
      reads this
      ensures name in data ==> r == data[name]
      ensures name !in data ==> r == Dict(map[])
    {
      if name in data then data[name] else Dict(map[])
    }
  }
}
