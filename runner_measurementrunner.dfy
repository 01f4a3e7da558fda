/**
 * runner/measurementrunner.ts: measures one query file against an engine built from one
 * config file and hands exactly one record to the measurement serializer (which writes it
 * as JSON to its one path, runner/measurementserializer.ts, replacing the file's contents): the query and config ids, then
 * either the measurements or `{ error }`. The context is the context file's entries with
 * the request counter's `fetch` and `lenient: true` on top.
 *
 * Reading files, parsing JSON, building an engine, the global fetch, the hash function and
 * the clock reading taken once `queryBindings` has resolved are parameters. The request
 * counter the runner is given implements `IRequestCounter` from runner/requestcounter.ts,
 * which is not part of this model; the collector of runner/requestcollector.ts has the same
 * three members and stands in for it.
 */
module RunnerMeasurementRunner {
  import opened Wrappers
  import opened Seqs
  import opened Strings
  import opened Dicts
  import opened Rdf
  import opened Fetching
  import opened BindingsStreams
  import opened NodePaths
  import RunnerBindingsHash
  import RunnerRequestCollector
  import RunnerQueryRunner

  type Reader = string -> string

  /** What `execute` resolves to, or the error of `{ error: String(error) }`. */
  datatype Body =
    | Errored(error: string)
    | Measured(duration: int, intervals: seq<int>, count: nat, hash: string, requestCount: nat, links: seq<string>)

  /** `{ query: queryId, config: configId, ...output }`. */
  datatype Measurement = Measurement(query: string, config: string, body: Body)

  /** `context ? JSON.parse(readFileSync(context)) : {}`: no path or an empty one gives no
      entries; otherwise the parse of the file, which may throw. */
  function FileContext(context: Option<string>, read: Reader, parse: string -> Outcome<Context>): Outcome<Context> {
    if context.None? || context.value == "" then Ok([]) else parse(read(context.value))
  }

  /** `{ ...contextFromFile, fetch, lenient: true }`. */
  function MeasurementContext(fileContext: Context): Context {
    Put(Put(PutAll([], fileContext), "fetch", CountingFetch), "lenient", Flag(true))
  }

  /** `fetch` is the counter's and `lenient` is on whatever the file says; every other key
      holds the file's last entry for it, or is absent. */
  lemma MeasurementContextEntries(fileContext: Context, k: string)
    ensures Valid(MeasurementContext(fileContext))
    ensures Get(MeasurementContext(fileContext), k) ==
      if k == "lenient" then Some(Flag(true)) else if k == "fetch" then Some(CountingFetch) else LastValue(fileContext, k)
  {
    var d1 := PutAll([], fileContext);
    GetPutAll([], fileContext, k);
    GetPut(d1, "fetch", CountingFetch, k);
    GetPut(Put(d1, "fetch", CountingFetch), "lenient", Flag(true), k);
  }

  /** What the answer measures to: the rejection or the stream's error, or the
      measurements with the given digest, count and links once the stream ends. */
  function Measure(answer: Answer, start: int, digest: string, requestCount: nat, links: seq<string>): Body {
    match answer
    case Rejected(_, error) => Errored(error)
    case Resolved(stream) =>
      match stream.ending
      case Failure(error) => Errored(error)
      case End(now) => Measured(now - start, Intervals(start, Times(stream.data)), |stream.data|, digest, requestCount, links)
  }

  /** A body is an error exactly when the engine, the query or the stream fails, with that
      error; otherwise one interval per result, spanning the start to the last result. */
  lemma MeasureShape(answer: Answer, start: int, digest: string, requestCount: nat, links: seq<string>)
    ensures var b := Measure(answer, start, digest, requestCount, links);
      (b.Errored? <==> ErrorOf(answer).Some?) && (b.Errored? ==> b.error == ErrorOf(answer).value)
      && (b.Measured? ==>
            b.count == |Data(answer)| && |b.intervals| == b.count
            && Sum(b.intervals) == (if b.count == 0 then 0 else Data(answer)[b.count - 1].1 - start)
            && b.hash == digest && b.requestCount == requestCount && b.links == links)
  {
    IntervalsOfData(start, Data(answer));
  }

  /** The engine built from `configPath` with the working directory as main module path,
      asked the query. */
  function Answered(create: (string, string) -> Outcome<Engine>, config: string, cwd: string, queryString: string, context: Context): Answer {
    match create(config, cwd)
    case Err(e) => Rejected([], e)
    case Ok(engine) => engine(queryString, context)
  }

  /** `MeasurementSerializer`: each `serialize` writes its record to the one file at `path`,
      replacing what an earlier call wrote there. */
  class MeasurementSerializer {
    const path: string
    var files: map<string, Measurement>

    constructor(path: string)
      ensures this.path == path && files == map[]
    {
      this.path := path;
      files := map[];
    }

    method Serialize(m: Measurement)
      modifies this
      ensures files == old(files)[path := m]
    {
      files := files[path := m];
    }
  }

  class MeasurementRunner {
    const bindingsHash: RunnerBindingsHash.BindingsHash
    const requestCounter: RunnerRequestCollector.RequestCollector
    const measurementSerializer: MeasurementSerializer

    constructor(bindingsHash: RunnerBindingsHash.BindingsHash, requestCounter: RunnerRequestCollector.RequestCollector,
                measurementSerializer: MeasurementSerializer)
      ensures this.bindingsHash == bindingsHash && this.requestCounter == requestCounter
      ensures this.measurementSerializer == measurementSerializer
    {
      this.bindingsHash := bindingsHash;
      this.requestCounter := requestCounter;
      this.measurementSerializer := measurementSerializer;
    }

    /** `run(config, query, context)`, with `start` the clock reading once `queryBindings`
        has resolved. A context file that does not parse rejects before anything is written;
        otherwise exactly one record is serialized, named by the two ids, whatever the
        engine does. */
    method Run(config: string, query: string, context: Option<string>, read: Reader, parse: string -> Outcome<Context>,
               create: (string, string) -> Outcome<Engine>, cwd: string, start: int) returns (rejected: Option<string>)
      requires requestCounter.Valid()
      modifies bindingsHash, requestCounter, measurementSerializer
      ensures requestCounter.Valid()
      ensures rejected.Some? <==> FileContext(context, read, parse).Err?
      ensures rejected.Some? ==>
        rejected.value == FileContext(context, read, parse).error && unchanged(bindingsHash, requestCounter, measurementSerializer)
      ensures rejected.None? ==>
        var answer := Answered(create, config, cwd, read(query), MeasurementContext(FileContext(context, read, parse).value));
        bindingsHash.bindings == old(bindingsHash.bindings) + Bindings(Data(answer))
        && requestCounter.calls == old(requestCounter.calls) + Requests(answer)
        && measurementSerializer.files == old(measurementSerializer.files)[measurementSerializer.path :=
             Measurement(Stem(query), Stem(config),
                         Measure(answer, start,
                                 bindingsHash.hash(bindingsHash.algorithm, bindingsHash.encoding, Concat(RunnerBindingsHash.HashInput(bindingsHash.compare, bindingsHash.bindings))),
                                 requestCounter.GetCount(), requestCounter.GetLinks()))]
    {
      var queryId := Stem(query);
      var configId := Stem(config);
      var queryString := read(query);
      var contextFromFile := FileContext(context, read, parse);
      if contextFromFile.Err? {
        return Some(contextFromFile.error);
      }
      var queryStringContext := MeasurementContext(contextFromFile.value);
      var output := Execute(queryString, config, queryStringContext, create, cwd, start);
      measurementSerializer.Serialize(Measurement(queryId, configId, output));
      rejected := None;
    }

    /** `execute`, with a failure caught into `{ error }` by the caller. */
    method Execute(queryString: string, engineConfig: string, context: Context, create: (string, string) -> Outcome<Engine>,
                   cwd: string, start: int) returns (output: Body)
      requires requestCounter.Valid()
      modifies bindingsHash, requestCounter
      ensures requestCounter.Valid()
      ensures bindingsHash.bindings == old(bindingsHash.bindings) + Bindings(Data(Answered(create, engineConfig, cwd, queryString, context)))
      ensures requestCounter.calls == old(requestCounter.calls) + Requests(Answered(create, engineConfig, cwd, queryString, context))
      ensures output == Measure(Answered(create, engineConfig, cwd, queryString, context), start,
                                bindingsHash.hash(bindingsHash.algorithm, bindingsHash.encoding, Concat(RunnerBindingsHash.HashInput(bindingsHash.compare, bindingsHash.bindings))),
                                requestCounter.GetCount(), requestCounter.GetLinks())
    {
      var queryEngine := create(engineConfig, cwd);
      if queryEngine.Err? {
        return Errored(queryEngine.error);
      }
      var answer := queryEngine.value(queryString, context);
      if answer.Rejected? {
        RunnerQueryRunner.Collect(requestCounter, answer.requests);
        return Errored(answer.error);
      }
      var startTime := start;
      RunnerQueryRunner.Collect(requestCounter, answer.stream.requests);
      var resultCount, intervals := RunnerQueryRunner.OnData(bindingsHash, startTime, answer.stream.data);
      if answer.stream.ending.Failure? {
        output := Errored(answer.stream.ending.error);
      } else {
        var hash := bindingsHash.Digest();
        output := Measured(answer.stream.ending.now - startTime, intervals, resultCount, hash,
                           requestCounter.GetCount(), requestCounter.GetLinks());
      }
    }
  }
}
