/**
 * experiment/experiment.py: an experiment manifest. Opening a path either creates a manifest
 * with default settings (the path must not exist) or loads one (the path must be an existing
 * file), resolving the query, results, working-directory and binary paths and reading every
 * query file into `query_strings`.
 *
 * The file system is replaced by its answers: whether the path exists and is a file, the
 * working directory, the parsed manifest, what each query file holds, `Path.resolve` and
 * `Path.as_uri`. JSON text is not modelled: the manifest is the dictionary `as_dict` builds.
 */
module ExperimentFile {
  import opened Wrappers
  import opened Dicts
  import opened Strings
  import opened Seqs
  import opened QueryFiles

  /** A JSON value, for the engine context. */
  datatype Json = JNull | JBool(b: bool) | JNumber(n: int) | JString(s: string) | JArray(items: seq<Json>) | JObject(fields: Dict<string, Json>)

  /** The thirteen entries of `as_dict`, paths written as POSIX text. */
  datatype Settings = Settings(
    queries: seq<string>, configs: seq<string>, replication: int, results: string,
    cwd: string, bin: string, timeout: int,
    context: Dict<string, Json>, environment: Dict<string, string>,
    proxyHost: string, proxyPort: int, upstreamHost: string, upstreamPort: int)

  // ---------------------------------------------------------------- opening a path

  datatype Mode = CreateMode | LoadMode

  /** `__init__`'s choice: create only where nothing exists, load only an existing file,
      otherwise raise. */
  function OpenMode(path: string, create: bool, present: bool, isFile: bool): (r: Outcome<Mode>)
    ensures r == Ok(CreateMode) <==> create && !present
    ensures r == Ok(LoadMode) <==> !create && present && isFile
    ensures r.Err? ==> r.error == "Invalid experiment path \"" + path + "\""
  {
    if create && !present then Ok(CreateMode)
    else if !create && present && isFile then Ok(LoadMode)
    else Err("Invalid experiment path \"" + path + "\"")
  }

  /** An existing path is never created over, and a missing path or a directory is never
      loaded. */
  lemma OpenModeRefuses(path: string, create: bool, present: bool, isFile: bool)
    ensures present ==> OpenMode(path, create, present, isFile) != Ok(CreateMode)
    ensures !present || !isFile ==> OpenMode(path, create, present, isFile) != Ok(LoadMode)
    ensures create == present ==> OpenMode(path, create, present, isFile).Err?
  {
  }

  // ---------------------------------------------------------------- create

  /** `Path.joinpath` on POSIX text. */
  function JoinPath(dir: string, name: string): (r: string)
    ensures StartsWith(r, dir) && EndsWith(r, name)
  {
    if EndsWith(dir, "/") then dir + name else dir + "/" + name
  }

  const DefaultContext: Dict<string, Json> := [("sources", JArray([])), ("lenient", JBool(true))]
  const DefaultEnvironment: Dict<string, string> :=
    [("NODE_OPTIONS", "--max-old-space-size=8192"), ("NODE_ENV", "production")]

  /** The settings `create` gives a new experiment in the working directory `cwd`. */
  function Defaults(cwd: string): (s: Settings)
    ensures s.queries == [] && s.configs == []
    ensures s.replication == 3 && s.timeout == 60
    ensures s.results == cwd && s.cwd == cwd && StartsWith(s.bin, cwd) && EndsWith(s.bin, "bin/query.js")
    ensures s.proxyHost == "localhost" && s.proxyPort == 3000
    ensures s.upstreamHost == "localhost" && s.upstreamPort == 3001
    ensures Get(s.context, "lenient") == Some(JBool(true)) && Get(s.context, "sources") == Some(JArray([]))
    ensures Get(s.environment, "NODE_ENV") == Some("production")
  {
    Settings([], [], 3, cwd, cwd, JoinPath(cwd, "bin/query.js"), 60, DefaultContext, DefaultEnvironment,
             "localhost", 3000, "localhost", 3001)
  }

  // ---------------------------------------------------------------- load

  /** `load` on a manifest: query paths, the results path, the working directory and the binary
      are resolved; config paths and every other entry are taken as written. */
  function Load(resolve: string -> string, m: Settings): (s: Settings)
    ensures s.configs == m.configs && s.replication == m.replication && s.timeout == m.timeout
    ensures s.context == m.context && s.environment == m.environment
    ensures |s.queries| == |m.queries|
  {
    m.(queries := Map(resolve, m.queries), results := resolve(m.results),
       cwd := resolve(m.cwd), bin := resolve(m.bin))
  }

  /** A path that is already resolved is a fixed point of `resolve`. */
  predicate Resolved(resolve: string -> string, s: Settings) {
    && (forall i :: 0 <= i < |s.queries| ==> resolve(s.queries[i]) == s.queries[i])
    && resolve(s.results) == s.results && resolve(s.cwd) == s.cwd && resolve(s.bin) == s.bin
  }

  /** Mapping fixed points changes nothing. */
  lemma {:induction false} MapFixed(resolve: string -> string, ps: seq<string>)
    requires forall i :: 0 <= i < |ps| ==> resolve(ps[i]) == ps[i]
    ensures Map(resolve, ps) == ps
  {
    if |ps| > 0 {
      MapFixed(resolve, ps[1..]);
    }
  }

  /** Saving settings whose paths are resolved and loading them gives them back: the manifest
      `create` writes is read back by `load` unchanged. */
  lemma LoadAsDict(resolve: string -> string, s: Settings)
    requires Resolved(resolve, s)
    ensures Load(resolve, s) == s
  {
    MapFixed(resolve, s.queries);
  }

  /** Loading a manifest whose paths `resolve` maps to themselves keeps the experiment `create`
      made in a resolved working directory. */
  lemma LoadCreated(resolve: string -> string, cwd: string)
    requires resolve(cwd) == cwd && resolve(Defaults(cwd).bin) == Defaults(cwd).bin
    ensures Load(resolve, Defaults(cwd)) == Defaults(cwd)
  {
    LoadAsDict(resolve, Defaults(cwd));
  }

  /** The query files of a loaded experiment: the URI of each resolved path and its text. */
  function QueryFilesOf(queries: seq<string>, fileUri: string -> string, read: string -> string): (r: seq<(string, string)>)
    ensures |r| == |queries|
    ensures forall i :: 0 <= i < |r| ==> r[i] == (fileUri(queries[i]), read(queries[i]))
  {
    seq(|queries|, i requires 0 <= i < |queries| => (fileUri(queries[i]), read(queries[i])))
  }

  /** The attributes each mode sets on the experiment. */
  function Attributes(mode: Mode): set<string> {
    var common := {
      "queries", "configs", "replication", "results", "query_engine_cwd", "query_engine_bin",
      "query_engine_timeout", "query_engine_context", "query_engine_environment",
      "proxy_server_host", "proxy_server_port", "proxy_server_upstream_host", "proxy_server_upstream_port"};
    if mode == LoadMode then common + {"query_strings"} else common
  }

  class Experiment {
    var settings: Settings
    /** `query_strings`: only `load` sets it. */
    var queryStrings: Option<Dict<string, string>>

    constructor(settings: Settings, queryStrings: Option<Dict<string, string>>)
      ensures this.settings == settings && this.queryStrings == queryStrings
    {
      this.settings := settings;
      this.queryStrings := queryStrings;
    }
  }

  /** `Experiment(path, create)`: the new experiment and, in create mode, the manifest written. */
  method Open(path: string, create: bool, present: bool, isFile: bool,
              cwd: string, manifest: Settings,
              resolve: string -> string, fileUri: string -> string, read: string -> string)
    returns (r: Outcome<Experiment>, written: Option<Settings>)
    ensures OpenMode(path, create, present, isFile).Err? ==> r == Err(OpenMode(path, create, present, isFile).error) && written == None
    ensures OpenMode(path, create, present, isFile) == Ok(CreateMode) ==>
      r.Ok? && fresh(r.value) && r.value.settings == Defaults(cwd) && r.value.queryStrings == None
      && written == Some(Defaults(cwd))
    ensures OpenMode(path, create, present, isFile) == Ok(LoadMode) ==>
      r.Ok? && fresh(r.value) && r.value.settings == Load(resolve, manifest) && written == None
      && r.value.queryStrings == Some(QueryDict(StrippedQueries, QueryFilesOf(Load(resolve, manifest).queries, fileUri, read)))
  {
    match OpenMode(path, create, present, isFile)
    case Err(e) =>
      r, written := Err(e), None;
    case Ok(CreateMode) =>
      var e := new Experiment(Defaults(cwd), None);
      r, written := Ok(e), Some(e.settings);
    case Ok(LoadMode) =>
      var settings := Load(resolve, manifest);
      var queryStrings := LoadQueries(QueryFilesOf(settings.queries, fileUri, read));
      var e := new Experiment(settings, Some(queryStrings));
      r, written := Ok(e), None;
  }
}
