/** The interface of Microsoft.Extensions.Configuration that the settings core
    drives: optional sources, each giving flat key/value pairs, merged in order
    with later sources overriding earlier ones. */
module ConfigurationSources {
  import opened Wrappers

  /** The flattened content of one source: colon-separated key paths
      (`testConfiguration:loadEnvironmentVariables`) mapped to their text. */
  type Settings = map<string, string>

  /** The JSON files that exist, by path, already flattened. A path that is not
      a key is a missing file, which an optional source reads as empty. */
  type FileSystem = map<string, Settings>

  /** The process environment: variable name to value. */
  type Environment = map<string, string>

  datatype Source =
    /** `AddJsonFile(path, optional: true)`. */
    | JsonFile(path: string)
    /** `AddEnvironmentVariables()` when `prefix` is `None`,
        `AddEnvironmentVariables(prefix)` otherwise. */
    | EnvironmentVariables(prefix: Option<string>)

  /** The variables whose name starts with `prefix`, with the prefix removed. */
  function WithPrefixStripped(env: Environment, prefix: string): (m: Settings)
    ensures forall name :: name in m ==> prefix + name in env && m[name] == env[prefix + name]
    ensures forall full :: full in env && prefix <= full ==> full[|prefix|..] in m
  {
    var names := set full | full in env && prefix <= full :: full[|prefix|..];
    var m := map name | name in names && prefix + name in env :: env[prefix + name];
    assert forall full :: full in env && prefix <= full ==> prefix + full[|prefix|..] == full;
    m
  }

  /** What one source contributes: a missing optional file nothing, an existing
      one its pairs; all variables without a prefix, otherwise the variables with
      the prefix, keyed without it. */
  function Load(source: Source, files: FileSystem, env: Environment): (m: Settings)
    ensures source.JsonFile? ==> m == if source.path in files then files[source.path] else map[]
    ensures source == EnvironmentVariables(None) ==> m == env
    ensures source.EnvironmentVariables? && source.prefix.Some? ==>
      forall name :: name in m <==> source.prefix.value + name in env
    ensures source.EnvironmentVariables? && source.prefix.Some? ==>
      forall name :: name in m ==> m[name] == env[source.prefix.value + name]
  {
    assert source.EnvironmentVariables? && source.prefix.Some? ==>
      forall name :: source.prefix.value + name in env ==> (source.prefix.value + name)[|source.prefix.value|..] == name;
    match source
    case JsonFile(path) => if path in files then files[path] else map[]
    case EnvironmentVariables(None) => env
    case EnvironmentVariables(Some(prefix)) => WithPrefixStripped(env, prefix)
  }

  /** Left fold of the layers, each overwriting the keys it defines. */
  function Merge(layers: seq<Settings>): (m: Settings)
    ensures forall key :: key in m <==> exists i :: 0 <= i < |layers| && key in layers[i]
  {
    if layers == [] then map[]
    else
      var init := layers[..|layers| - 1];
      var last := layers[|layers| - 1];
      var m := Merge(init) + last;
      forall key ensures key in m <==> exists i :: 0 <= i < |layers| && key in layers[i] {
        if key in last {
          assert key in layers[|layers| - 1];
        } else if key in Merge(init) {
          var i :| 0 <= i < |init| && key in init[i];
          assert key in layers[i];
        } else {
          forall i | 0 <= i < |layers| ensures key !in layers[i] {
            if i < |init| {
              assert layers[i] == init[i];
            }
          }
        }
      }
      m
  }

  /** One step of the fold: the last layer is laid over the merge of the others. */
  lemma MergeStep(layers: seq<Settings>)
    requires layers != []
    ensures Merge(layers) == Merge(layers[..|layers| - 1]) + layers[|layers| - 1]
  {
  }

  /** A key takes its value from the last layer that defines it. */
  lemma {:induction false} MergeTakesLastDefinition(layers: seq<Settings>, key: string, i: nat)
    requires i < |layers| && key in layers[i]
    requires forall j :: i < j < |layers| ==> key !in layers[j]
    ensures key in Merge(layers) && Merge(layers)[key] == layers[i][key]
  {
    var n := |layers| - 1;
    var init, last := layers[..n], layers[n];
    MergeStep(layers);
    if i < n {
      assert key !in last;
      assert init[i] == layers[i];
      forall j | i < j < |init| ensures key !in init[j] {
        assert init[j] == layers[j];
      }
      MergeTakesLastDefinition(init, key, i);
      var below := Merge(init);
      assert Merge(layers) == below + last;
      assert (below + last)[key] == below[key];
    }
  }

  /** `ConfigurationBuilder`: the sources added so far, in the order they were
      added. Each `Add…` call appends to the same builder in place. */
  class ConfigurationBuilder {
    var sources: seq<Source>

    constructor()
      ensures sources == []
    {
      sources := [];
    }

    /** `AddJsonFile(path, optional: true)`. */
    method AddJsonFile(path: string)
      modifies this
      ensures sources == old(sources) + [JsonFile(path)]
    {
      sources := sources + [JsonFile(path)];
    }

    /** `AddEnvironmentVariables()` for `None`, `AddEnvironmentVariables(prefix)` otherwise. */
    method AddEnvironmentVariables(prefix: Option<string>)
      modifies this
      ensures sources == old(sources) + [EnvironmentVariables(prefix)]
    {
      sources := sources + [EnvironmentVariables(prefix)];
    }
  }

  /** The result of `Build()`: the sources in the order they were added and the
      merged key/value pairs. */
  datatype ConfigurationRoot = ConfigurationRoot(sources: seq<Source>, values: Settings)

  function LoadAll(sources: seq<Source>, files: FileSystem, env: Environment): (layers: seq<Settings>)
    ensures |layers| == |sources|
    ensures forall i :: 0 <= i < |sources| ==> layers[i] == Load(sources[i], files, env)
  {
    seq(|sources|, i requires 0 <= i < |sources| => Load(sources[i], files, env))
  }

  /** `Build()`: the sources as added, and a key for every key some source defines. */
  function Build(sources: seq<Source>, files: FileSystem, env: Environment): (root: ConfigurationRoot)
    ensures root.sources == sources
    ensures forall key :: key in root.values <==> exists i :: 0 <= i < |sources| && key in Load(sources[i], files, env)
  {
    ConfigurationRoot(sources, Merge(LoadAll(sources, files, env)))
  }

  /** Each key of a built configuration comes from the last source that defines it. */
  lemma BuildTakesLastDefinition(sources: seq<Source>, files: FileSystem, env: Environment, key: string, i: nat)
    requires i < |sources| && key in Load(sources[i], files, env)
    requires forall j :: i < j < |sources| ==> key !in Load(sources[j], files, env)
    ensures key in Build(sources, files, env).values
    ensures Build(sources, files, env).values[key] == Load(sources[i], files, env)[key]
  {
    MergeTakesLastDefinition(LoadAll(sources, files, env), key, i);
  }

  /** A key no source defines is missing from the built configuration. */
  lemma BuildHasOnlyDefinedKeys(sources: seq<Source>, files: FileSystem, env: Environment, key: string)
    requires forall j :: 0 <= j < |sources| ==> key !in Load(sources[j], files, env)
    ensures key !in Build(sources, files, env).values
  {
  }
}
