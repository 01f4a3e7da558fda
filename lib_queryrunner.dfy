/**
 * lib/QueryRunner.ts: `executeAndMeasure` runs one query file against an engine built from
 * one config file, with a fresh bindings hash and a fresh fetch counter, and resolves with
 * the measurements whether the result stream ends or fails. `executeAndSerializeMultiple`
 * measures every (config file, query file) pair of two directories, configs outer and
 * queries inner, one after the other, and writes each measurement to
 * `<config name before its first '.'>-<query name before its first '.'>.json`.
 *
 * Reading a file, building an engine from a config path, the global fetch, the hash
 * function, the directory listings and the clock reading taken before `queryBindings` are
 * parameters; the written files are returned.
 */
module LibQueryRunner {
  import opened Wrappers
  import opened Seqs
  import opened Strings
  import opened Rdf
  import opened Fetching
  import opened BindingsStreams
  import opened NodePaths
  import opened Sorting
  import opened PackageBindingsHash
  import LibBindingsHash
  import LibFetchCounter

  type Reader = string -> string

  /** `IQueryResult`. */
  datatype QueryResult = QueryResult(hash: string, requests: nat, results: nat, query: string, config: string,
                                     intervals: seq<int>, error: Option<string>)

  /** The context `executeAndMeasure` passes: the counter's `fetch`, nothing else. */
  const FetchOnly: Context := [("fetch", CountingFetch)]

  /** What `executeAndMeasure` settles to when the clock reads `start` as the query starts:
      it rejects when the engine cannot be built or `queryBindings` rejects, and otherwise
      resolves with what a fresh hash and a fresh counter saw, the stream's error included. */
  function Measured(configPath: string, queryPath: string, read: Reader, create: string -> Outcome<Engine>,
                    hash: PushedDigest, compare: Comparator, start: int): Outcome<QueryResult> {
    match create(configPath)
    case Err(e) => Err(e)
    case Ok(engine) =>
      match engine(read(queryPath), FetchOnly)
      case Rejected(_, e) => Err(e)
      case Resolved(stream) =>
        Ok(QueryResult(hash(LibBindingsHash.Algorithm, "hex", SortedValues(compare, Bindings(stream.data))), |stream.requests|,
                       |stream.data|, Basename(queryPath), Basename(configPath), Intervals(start, Times(stream.data)),
                       if stream.ending.Failure? then Some(stream.ending.error) else None))
  }

  /** The measurement resolves exactly when the engine is built and answers; a failing
      stream still resolves, with its error. It names the two files by their basenames,
      holds one interval per result, and the intervals add up to the time from the start
      to the last result. */
  lemma MeasuredShape(configPath: string, queryPath: string, read: Reader, create: string -> Outcome<Engine>,
                      hash: PushedDigest, compare: Comparator, start: int)
    ensures var r := Measured(configPath, queryPath, read, create, hash, compare, start);
      (r.Ok? <==> create(configPath).Ok? && create(configPath).value(read(queryPath), FetchOnly).Resolved?)
      && (r.Ok? ==>
        var answer := create(configPath).value(read(queryPath), FetchOnly);
        r.value.config == Basename(configPath) && r.value.query == Basename(queryPath)
        && |r.value.intervals| == r.value.results == |Data(answer)| && r.value.requests == |Requests(answer)|
        && Sum(r.value.intervals) == (if r.value.results == 0 then 0 else Data(answer)[r.value.results - 1].1 - start)
        && r.value.error == ErrorOf(answer))
  {
    if create(configPath).Ok? {
      IntervalsOfData(start, Data(create(configPath).value(read(queryPath), FetchOnly)));
    }
  }

  /** The hash does not depend on the order the results arrive in, when `localeCompare`
      separates the texts of the results. */
  lemma MeasuredOrderFree(configPath: string, queryPath: string, read: Reader, create1: string -> Outcome<Engine>,
                          create2: string -> Outcome<Engine>, hash: PushedDigest, compare: Comparator, start: int)
    requires Measured(configPath, queryPath, read, create1, hash, compare, start).Ok?
    requires Measured(configPath, queryPath, read, create2, hash, compare, start).Ok?
    requires multiset(Bindings(Data(create1(configPath).value(read(queryPath), FetchOnly))))
          == multiset(Bindings(Data(create2(configPath).value(read(queryPath), FetchOnly))))
    requires Consistent(compare) && Separates(compare, Map(ValueLine, Bindings(Data(create1(configPath).value(read(queryPath), FetchOnly)))))
    ensures Measured(configPath, queryPath, read, create1, hash, compare, start).value.hash
         == Measured(configPath, queryPath, read, create2, hash, compare, start).value.hash
  {
    SortedValuesPermutation(compare, Bindings(Data(create1(configPath).value(read(queryPath), FetchOnly))),
                            Bindings(Data(create2(configPath).value(read(queryPath), FetchOnly))));
  }

  /** `executeAndMeasure`. */
  method ExecuteAndMeasure(configPath: string, queryPath: string, read: Reader, create: string -> Outcome<Engine>,
                           network: FetchFunction, hash: PushedDigest, compare: Comparator, start: int) returns (r: Outcome<QueryResult>)
    ensures r == Measured(configPath, queryPath, read, create, hash, compare, start)
  {
    var queryString := read(queryPath);
    var bindingsHash := new LibBindingsHash.BindingsHash(hash, compare);
    var fetchCounter := LibFetchCounter.CreateFetchCounter(network);
    var engine := create(configPath);
    if engine.Err? {
      return Err(engine.error);
    }
    var queryStartTime := start;
    var answer := engine.value(queryString, [("fetch", CountingFetch)]);
    if answer.Rejected? {
      return Err(answer.error);
    }
    SendRequests(fetchCounter, answer.stream.requests);
    var results, intervals := OnData(bindingsHash, queryStartTime, answer.stream.data);
    var error := if answer.stream.ending.Failure? then Some(answer.stream.ending.error) else None;
    var digest := bindingsHash.Digest("hex");
    r := Ok(QueryResult(digest, fetchCounter.count, results, Basename(queryPath), Basename(configPath), intervals, error));
  }

  /** The 'data' handler over the whole stream, on a hash that has seen nothing yet. */
  method OnData(bindingsHash: LibBindingsHash.BindingsHash, start: int, data: seq<(Binding, int)>)
    returns (results: nat, intervals: seq<int>)
    requires bindingsHash.bindings == []
    modifies bindingsHash
    ensures results == |data| && intervals == Intervals(start, Times(data))
    ensures bindingsHash.bindings == Bindings(data)
  {
    results, intervals := 0, [];
    var previousTime := start;
    for i := 0 to |data|
      invariant results == i && intervals == Intervals(start, Times(data[..i]))
      invariant bindingsHash.bindings == Bindings(data[..i])
      invariant previousTime == if i == 0 then start else data[i - 1].1
    {
      IntervalsSnoc(start, data, i);
      BindingsSnoc(data, i);
      bindingsHash.Add(data[i].0);
      results := results + 1;
      var currentTime := data[i].1;
      intervals := intervals + [currentTime - previousTime];
      previousTime := currentTime;
    }
    assert data[..|data|] == data;
  }

  // ---------------------------------------------------------------- executeAndSerializeMultiple

  /** An entry of `readdirSync(dir, { withFileTypes: true })`. */
  datatype Dirent = Dirent(path: string, name: string, isFile: bool)

  /** The pairs one config entry contributes: none unless it is a file, else one per query
      file, in listing order. */
  function QueryPair(config: Dirent): Dirent -> seq<(Dirent, Dirent)> {
    (query: Dirent) => if query.isFile then [(config, query)] else []
  }

  function ConfigPairs(queries: seq<Dirent>): Dirent -> seq<(Dirent, Dirent)> {
    (config: Dirent) => if config.isFile then Flattened(QueryPair(config), queries) else []
  }

  /** The (config, query) pairs in the order the two loops visit them. */
  function Pairs(configs: seq<Dirent>, queries: seq<Dirent>): seq<(Dirent, Dirent)> {
    Flattened(ConfigPairs(queries), configs)
  }

  /** A pair is visited exactly when both of its entries are files of the listings. */
  lemma PairsMembers(configs: seq<Dirent>, queries: seq<Dirent>, p: (Dirent, Dirent))
    ensures p in Pairs(configs, queries) <==> p.0 in configs && p.0.isFile && p.1 in queries && p.1.isFile
  {
    FlattenedMembers(ConfigPairs(queries), configs, p);
    FlattenedMembers(QueryPair(p.0), queries, p);
    if p in Pairs(configs, queries) {
      var i :| 0 <= i < |configs| && p in ConfigPairs(queries)(configs[i]);
      FlattenedMembers(QueryPair(configs[i]), queries, p);
    }
    if p.0 in configs && p.0.isFile && p.1 in queries && p.1.isFile {
      var i :| 0 <= i < |configs| && configs[i] == p.0;
      var j :| 0 <= j < |queries| && queries[j] == p.1;
      assert p in QueryPair(p.0)(queries[j]);
    }
  }

  /** The number of file entries of a listing. */
  function FileCount(entries: seq<Dirent>): nat {
    if |entries| == 0 then 0 else FileCount(entries[..|entries| - 1]) + (if entries[|entries| - 1].isFile then 1 else 0)
  }

  /** Every query file is measured once with every config file. */
  lemma {:induction false} PairsCount(configs: seq<Dirent>, queries: seq<Dirent>)
    ensures |Pairs(configs, queries)| == FileCount(configs) * FileCount(queries)
  {
    if |configs| > 0 {
      var c := configs[|configs| - 1];
      PairsCount(configs[..|configs| - 1], queries);
      if c.isFile {
        RowCount(c, queries);
        MulSucc(FileCount(configs[..|configs| - 1]), FileCount(queries));
      }
    }
  }

  lemma {:induction false} RowCount(config: Dirent, queries: seq<Dirent>)
    ensures |Flattened(QueryPair(config), queries)| == FileCount(queries)
  {
    if |queries| > 0 {
      RowCount(config, queries[..|queries| - 1]);
    }
  }

  lemma MulSucc(a: nat, b: nat)
    ensures (a + 1) * b == a * b + b
  {
  }

  /** `join(output, `${config.name.split('.')[0]}-${query.name.split('.')[0]}.json`)`. */
  function OutputFile(output: string, config: Dirent, query: Dirent): string {
    JoinPath(output, FirstPiece(config.name, ".") + "-" + FirstPiece(query.name, ".") + ".json")
  }

  /** A directory entry's name holds no '/', so the output file is named after the two
      names up to their first '.'. */
  lemma OutputFileName(output: string, config: Dirent, query: Dirent)
    requires '/' !in config.name && '/' !in query.name
    ensures Basename(OutputFile(output, config, query)) == FirstPiece(config.name, ".") + "-" + FirstPiece(query.name, ".") + ".json"
  {
    FirstPieceWithin(config.name, '.');
    FirstPieceWithin(query.name, '.');
    var name := FirstPiece(config.name, ".") + "-" + FirstPiece(query.name, ".") + ".json";
    assert '/' !in name;
    BasenameOfJoin(output, name);
  }

  /** What the loops have written, and the error `executeAndSerializeMultiple` has rejected
      with, if any. */
  datatype Log = Log(written: seq<(string, QueryResult)>, failure: Option<string>)

  /** The measurement of a pair of entries. */
  function Measure(read: Reader, create: string -> Outcome<Engine>, hash: PushedDigest, compare: Comparator, clock: (Dirent, Dirent) -> int):
    (Dirent, Dirent) -> Outcome<QueryResult>
  {
    (config: Dirent, query: Dirent) =>
      Measured(JoinPath(config.path, config.name), JoinPath(query.path, query.name), read, create, hash, compare, clock(config, query))
  }

  /** One pair more: once a measurement has rejected, nothing more happens. */
  function Next(output: string, log: Log, p: (Dirent, Dirent), measure: (Dirent, Dirent) -> Outcome<QueryResult>): Log {
    if log.failure.Some? then log
    else match measure(p.0, p.1)
      case Err(e) => Log(log.written, Some(e))
      case Ok(m) => Log(log.written + [(OutputFile(output, p.0, p.1), m)], None)
  }

  function Serialized(output: string, pairs: seq<(Dirent, Dirent)>, measure: (Dirent, Dirent) -> Outcome<QueryResult>): Log {
    if |pairs| == 0 then Log([], None) else Next(output, Serialized(output, pairs[..|pairs| - 1], measure), pairs[|pairs| - 1], measure)
  }

  /** The k-th file written is the k-th pair's measurement under that pair's name; the
      writes stop at the first measurement that rejects, and that is the error. */
  lemma {:induction false} SerializedShape(output: string, pairs: seq<(Dirent, Dirent)>, measure: (Dirent, Dirent) -> Outcome<QueryResult>)
    ensures var log := Serialized(output, pairs, measure);
      |log.written| <= |pairs|
      && (log.failure.None? <==> |log.written| == |pairs|)
      && (log.failure.Some? ==> measure(pairs[|log.written|].0, pairs[|log.written|].1) == Err(log.failure.value))
      && forall k :: 0 <= k < |log.written| ==>
           measure(pairs[k].0, pairs[k].1).Ok?
           && log.written[k] == (OutputFile(output, pairs[k].0, pairs[k].1), measure(pairs[k].0, pairs[k].1).value)
  {
    if |pairs| > 0 {
      var init := pairs[..|pairs| - 1];
      SerializedShape(output, init, measure);
      assert forall k :: 0 <= k < |init| ==> pairs[k] == init[k];
    }
  }

  lemma SerializedSnoc(output: string, pairs: seq<(Dirent, Dirent)>, p: (Dirent, Dirent), measure: (Dirent, Dirent) -> Outcome<QueryResult>)
    ensures Serialized(output, pairs + [p], measure) == Next(output, Serialized(output, pairs, measure), p, measure)
  {
    assert (pairs + [p])[..|pairs|] == pairs;
  }

  /** A rejection ends the loops: later pairs change nothing. */
  lemma {:induction false} SerializedSticks(output: string, pairs: seq<(Dirent, Dirent)>, more: seq<(Dirent, Dirent)>,
                                            measure: (Dirent, Dirent) -> Outcome<QueryResult>)
    requires Serialized(output, pairs, measure).failure.Some?
    ensures Serialized(output, pairs + more, measure) == Serialized(output, pairs, measure)
    decreases |more|
  {
    if |more| > 0 {
      var init := more[..|more| - 1];
      SerializedSticks(output, pairs, init, measure);
      assert (pairs + more)[..|pairs + more| - 1] == pairs + init;
    } else {
      assert pairs + more == pairs;
    }
  }

  /** `executeAndSerializeMultiple(configs, queries, output)`: each file measured and written
      before the next pair starts; the first rejection rejects the whole call. */
  method ExecuteAndSerializeMultiple(configs: seq<Dirent>, queries: seq<Dirent>, output: string, read: Reader,
                                     create: string -> Outcome<Engine>, network: FetchFunction, hash: PushedDigest, compare: Comparator,
                                     clock: (Dirent, Dirent) -> int)
    returns (written: seq<(string, QueryResult)>, failure: Option<string>)
    ensures Log(written, failure) == Serialized(output, Pairs(configs, queries), Measure(read, create, hash, compare, clock))
  {
    var measure := Measure(read, create, hash, compare, clock);
    written, failure := [], None;
    for i := 0 to |configs|
      invariant failure.None?
      invariant Log(written, None) == Serialized(output, Pairs(configs[..i], queries), measure)
    {
      PairsStep(configs, queries, i);
      if !configs[i].isFile {
        assert Pairs(configs[..i], queries) + [] == Pairs(configs[..i], queries);
        continue;
      }
      written, failure := SerializeConfig(configs[i], queries, output, read, create, network, hash, compare, clock, measure,
                                          Pairs(configs[..i], queries), written);
      if failure.Some? {
        PairsSplit(configs, queries, i + 1);
        SerializedSticks(output, Pairs(configs[..i + 1], queries), Pairs(configs[i + 1..], queries), measure);
        return;
      }
    }
    assert configs[..|configs|] == configs;
  }

  /** The pairs of one config entry more. */
  lemma PairsStep(configs: seq<Dirent>, queries: seq<Dirent>, i: nat)
    requires i < |configs|
    ensures Pairs(configs[..i + 1], queries) ==
      Pairs(configs[..i], queries) + if configs[i].isFile then Flattened(QueryPair(configs[i]), queries) else []
  {
    FlattenedSnoc(ConfigPairs(queries), configs, i);
  }

  /** The pairs of a listing are those of a prefix followed by those of the rest. */
  lemma PairsSplit(configs: seq<Dirent>, queries: seq<Dirent>, i: nat)
    requires i <= |configs|
    ensures Pairs(configs, queries) == Pairs(configs[..i], queries) + Pairs(configs[i..], queries)
  {
    FlattenedAppend(ConfigPairs(queries), configs[..i], configs[i..]);
    assert configs[..i] + configs[i..] == configs;
  }

  /** The inner loop, over the query entries, for one config file. */
  method SerializeConfig(config: Dirent, queries: seq<Dirent>, output: string, read: Reader,
                         create: string -> Outcome<Engine>, network: FetchFunction, hash: PushedDigest, compare: Comparator,
                         clock: (Dirent, Dirent) -> int, measure: (Dirent, Dirent) -> Outcome<QueryResult>,
                         ghost before: seq<(Dirent, Dirent)>, written0: seq<(string, QueryResult)>)
    returns (written: seq<(string, QueryResult)>, failure: Option<string>)
    requires measure == Measure(read, create, hash, compare, clock)
    requires Log(written0, None) == Serialized(output, before, measure)
    ensures Log(written, failure) == Serialized(output, before + Flattened(QueryPair(config), queries), measure)
  {
    written := written0;
    assert before + Flattened(QueryPair(config), queries[..0]) == before;
    for j := 0 to |queries|
      invariant Log(written, None) == Serialized(output, before + Flattened(QueryPair(config), queries[..j]), measure)
    {
      RowStep(output, before, config, queries, j, measure);
      if !queries[j].isFile {
        continue;
      }
      written, failure := SerializePair(config, queries[j], output, read, create, network, hash, compare, clock, measure, written);
      if failure.Some? {
        RowSplit(before, config, queries, j + 1);
        SerializedSticks(output, before + Flattened(QueryPair(config), queries[..j + 1]),
                         Flattened(QueryPair(config), queries[j + 1..]), measure);
        return;
      }
    }
    assert queries[..|queries|] == queries;
    failure := None;
  }

  /** The body of the inner loop: one pair measured and, unless that rejects, written. */
  method SerializePair(config: Dirent, query: Dirent, output: string, read: Reader,
                       create: string -> Outcome<Engine>, network: FetchFunction, hash: PushedDigest, compare: Comparator,
                       clock: (Dirent, Dirent) -> int, measure: (Dirent, Dirent) -> Outcome<QueryResult>,
                       written0: seq<(string, QueryResult)>)
    returns (written: seq<(string, QueryResult)>, failure: Option<string>)
    requires measure == Measure(read, create, hash, compare, clock)
    ensures Log(written, failure) == Next(output, Log(written0, None), (config, query), measure)
  {
    var configPath := JoinPath(config.path, config.name);
    var queryPath := JoinPath(query.path, query.name);
    var outputFilePath := OutputFile(output, config, query);
    var measurement := ExecuteAndMeasure(configPath, queryPath, read, create, network, hash, compare, clock(config, query));
    if measurement.Err? {
      written, failure := written0, Some(measurement.error);
    } else {
      written, failure := written0 + [(outputFilePath, measurement.value)], None;
    }
  }

  /** One query entry more in the inner loop: a query file adds its pair, anything else
      nothing. */
  lemma RowStep(output: string, before: seq<(Dirent, Dirent)>, config: Dirent, queries: seq<Dirent>, j: nat,
                measure: (Dirent, Dirent) -> Outcome<QueryResult>)
    requires j < |queries|
    ensures var done := before + Flattened(QueryPair(config), queries[..j]);
      Serialized(output, before + Flattened(QueryPair(config), queries[..j + 1]), measure) ==
        if queries[j].isFile then Next(output, Serialized(output, done, measure), (config, queries[j]), measure)
        else Serialized(output, done, measure)
  {
    var done := before + Flattened(QueryPair(config), queries[..j]);
    FlattenedSnoc(QueryPair(config), queries, j);
    if queries[j].isFile {
      AppendSnoc(before, Flattened(QueryPair(config), queries[..j]), (config, queries[j]));
      SerializedSnoc(output, done, (config, queries[j]), measure);
    } else {
      assert Flattened(QueryPair(config), queries[..j + 1]) == Flattened(QueryPair(config), queries[..j]);
    }
  }

  /** The pairs of a config are those of a prefix of the query listing and then the rest. */
  lemma RowSplit(before: seq<(Dirent, Dirent)>, config: Dirent, queries: seq<Dirent>, j: nat)
    requires j <= |queries|
    ensures before + Flattened(QueryPair(config), queries) ==
      before + Flattened(QueryPair(config), queries[..j]) + Flattened(QueryPair(config), queries[j..])
  {
    FlattenedAppend(QueryPair(config), queries[..j], queries[j..]);
    assert queries[..j] + queries[j..] == queries;
  }
}
