/**
 * src/QueryRunner.ts: measures one query file against an engine built from one config
 * file and hands exactly one record to the result serializer: the query and config ids,
 * then the measurements or the raw error. The context is the context file's entries with
 * the request counter's `fetch` on top.
 *
 * The bindings hash implements `IBindingsHash` from src/BindingsHash.ts, which is not part
 * of this model: here it keeps the added bindings and digests them with a given function.
 * Reading files, parsing JSON, building an engine, the global fetch and the clock readings
 * are parameters.
 *
 * As written, the file does not type-check: it reads `fetch` and `count` from an
 * `IRequestCounter`, whose only members are `getFetch` and `getCount`. The runner below
 * uses those two; `Compiles` models the check on the member names.
 */
module SrcQueryRunner {
  import opened Wrappers
  import opened Seqs
  import opened Strings
  import opened Dicts
  import opened Rdf
  import opened Fetching
  import opened BindingsStreams
  import opened NodePaths
  import SrcRequestCounter

  type Reader = string -> string

  // ---------------------------------------------------------------- members of IRequestCounter

  /** The members `IRequestCounter` declares (src/RequestCounter.ts). */
  const CounterMembers: seq<string> := ["getFetch", "getCount"]

  /** The counter's members the runner reads, in the order it reads them. */
  const AccessedAsWritten: seq<string> := ["fetch", "count"]
  const Accessed: seq<string> := ["getFetch", "getCount"]

  /** The compiler's verdict on reading the given members of an `IRequestCounter`: the
      first one it does not declare is error TS2339. */
  function Compiles(accessed: seq<string>): (r: Outcome<()>)
    ensures r.Ok? <==> forall k :: 0 <= k < |accessed| ==> accessed[k] in CounterMembers
    ensures r.Err? ==> exists k :: 0 <= k < |accessed| && accessed[k] !in CounterMembers && r.error == Undeclared(accessed[k])
  {
    if |accessed| == 0 then Ok(())
    else if accessed[0] !in CounterMembers then Err(Undeclared(accessed[0]))
    else
      var rest := Compiles(accessed[1..]);
      assert forall k :: 1 <= k < |accessed| ==> accessed[k] == accessed[1..][k - 1];
      rest
  }

  /** Error TS2339 on reading `name`. */
  function Undeclared(name: string): string {
    "TS2339: Property '" + name + "' does not exist on type 'IRequestCounter'."
  }

  /** The file as written is rejected at its read of `fetch`. */
  lemma AsWrittenRejected()
    ensures Compiles(AccessedAsWritten) == Err(Undeclared("fetch"))
  {
    assert "fetch" != CounterMembers[0] && "fetch" != CounterMembers[1];
  }

  /** Reading the counter through `getFetch` and `getCount` type-checks. */
  lemma AccessedCompiles()
    ensures Compiles(Accessed) == Ok(())
  {
  }

  // ---------------------------------------------------------------- the result file name

  /** A measurement record. */
  datatype Body =
    | Raised(error: string)
    | Measured(hash: string, intervals: seq<int>, requests: nat, duration: int, results: nat)

  /** `{ query: queryId, config: configId, ...output }`. */
  datatype Output = Output(query: string, config: string, body: Body)

  /** `${results.configId}-${results.queryId}-${Date.now()}.json` on the record as written:
      it has `config` and `query` but neither `configId` nor `queryId`, so both read as
      `undefined`. */
  function WrittenNameAsWritten(output: Output, now: nat): string {
    "undefined-undefined-" + NatToDecimal(now) + ".json"
  }

  /** Two records serialized in the same millisecond go to the same file, whatever their
      ids: the later one overwrites the earlier. */
  lemma AsWrittenNamesCollide(a: Output, b: Output, now: nat)
    ensures WrittenNameAsWritten(a, now) == WrittenNameAsWritten(b, now)
    ensures WrittenNameAsWritten(Output("q1", "c1", Raised("")), 0) == WrittenNameAsWritten(Output("q2", "c2", Raised("")), 0)
  {
  }

  /** The name with the record's own ids. */
  function WrittenName(output: Output, now: nat): string {
    output.config + "-" + output.query + "-" + NatToDecimal(now) + ".json"
  }

  /** Ids free of '/' give a file name free of '/'. */
  lemma WrittenNameFree(output: Output, now: nat)
    requires '/' !in output.config && '/' !in output.query
    ensures '/' !in WrittenName(output, now)
  {
    NatToDecimalDigits(now);
  }

  /** Records with ids free of '-' written in the same millisecond share a file exactly when
      they have the same ids. */
  lemma WrittenNameKeepsIds(a: Output, b: Output, now: nat)
    requires '-' !in a.config && '-' !in b.config
    ensures WrittenName(a, now) == WrittenName(b, now) <==> a.config == b.config && a.query == b.query
  {
    if WrittenName(a, now) == WrittenName(b, now) {
      var tail := "-" + NatToDecimal(now) + ".json";
      var x, y := a.config + "-" + a.query, b.config + "-" + b.query;
      assert WrittenName(a, now) == x + tail && WrittenName(b, now) == y + tail;
      assert x == (x + tail)[..|x|];
      SharedSeparator(a.config, a.query, b.config, b.query);
    }
  }

  /** Cutting at the first '-' recovers both halves. */
  lemma SharedSeparator(c1: string, q1: string, c2: string, q2: string)
    requires '-' !in c1 && '-' !in c2 && c1 + "-" + q1 == c2 + "-" + q2
    ensures c1 == c2 && q1 == q2
  {
    var x, y := c1 + "-" + q1, c2 + "-" + q2;
    assert x[|c1|] == '-' && y[|c2|] == '-';
    assert forall i :: 0 <= i < |c1| ==> x[i] == c1[i] && c1[i] != '-';
    assert forall i :: 0 <= i < |c2| ==> y[i] == c2[i] && c2[i] != '-';
    assert c1 == x[..|c1|] && c2 == y[..|c2|];
    assert q1 == x[|c1| + 1..] && q2 == y[|c2| + 1..];
  }

  /** `ResultSerializer`: each record is written to `resolve(path, name)`, its name made of
      its ids and the time of writing, and replaces whatever that file held; `cwd` is the
      working directory `resolve` starts from. */
  class ResultSerializer {
    const path: string
    const cwd: string
    var files: map<string, Output>

    constructor(path: string, cwd: string)
      ensures this.path == path && this.cwd == cwd && files == map[]
    {
      this.path := path;
      this.cwd := cwd;
      files := map[];
    }

    /** The file a record written at `now` goes to. */
    function FileOf(output: Output, now: nat): (f: string)
      ensures '/' !in output.config && '/' !in output.query ==> Basename(f) == WrittenName(output, now)
    {
      assert '/' !in output.config && '/' !in output.query ==> '/' !in WrittenName(output, now) && |WrittenName(output, now)| > 0 by {
        if '/' !in output.config && '/' !in output.query {
          WrittenNameFree(output, now);
        }
      }
      ResolvePath(cwd, path, WrittenName(output, now))
    }

    method Serialize(output: Output, now: nat)
      modifies this
      ensures files == old(files)[FileOf(output, now) := output]
    {
      files := files[FileOf(output, now) := output];
    }
  }

  // ---------------------------------------------------------------- the bindings hash

  /** `IBindingsHash`: `add` keeps a binding, `digest` reads them all. */
  class BindingsHash {
    const digestOf: seq<Binding> -> string
    var bindings: seq<Binding>

    constructor(digestOf: seq<Binding> -> string)
      ensures this.digestOf == digestOf && bindings == []
    {
      this.digestOf := digestOf;
      bindings := [];
    }

    method Add(b: Binding)
      modifies this
      ensures bindings == old(bindings) + [b]
    {
      bindings := bindings + [b];
    }

    method Digest() returns (d: string)
      ensures d == digestOf(bindings)
    {
      d := digestOf(bindings);
    }
  }

  // ---------------------------------------------------------------- running

  /** `context ? JSON.parse(readFileSync(context)) : {}`. */
  function FileContext(context: Option<string>, read: Reader, parse: string -> Outcome<Context>): Outcome<Context> {
    if context.None? || context.value == "" then Ok([]) else parse(read(context.value))
  }

  /** `{ ...contextFromFile, fetch }`. */
  function QueryContext(fileContext: Context): Context {
    Put(PutAll([], fileContext), "fetch", CountingFetch)
  }

  /** `fetch` is the counter's whatever the file says; every other key holds the file's last
      entry for it, or is absent. */
  lemma QueryContextEntries(fileContext: Context, k: string)
    ensures Valid(QueryContext(fileContext))
    ensures Get(QueryContext(fileContext), k) == if k == "fetch" then Some(CountingFetch) else LastValue(fileContext, k)
  {
    GetPutAll([], fileContext, k);
    GetPut(PutAll([], fileContext), "fetch", CountingFetch, k);
  }

  /** The engine built from `configPath` alone, asked the query. */
  function Answered(create: string -> Outcome<Engine>, config: string, queryString: string, context: Context): Answer {
    match create(config)
    case Err(e) => Rejected([], e)
    case Ok(engine) => engine(queryString, context)
  }

  /** What the answer measures to: the raw error, or the measurements with the given digest
      and request count once the stream ends, `end` being the clock at that moment. */
  function Measure(answer: Answer, start: int, digest: string, requests: nat): Body {
    match answer
    case Rejected(_, error) => Raised(error)
    case Resolved(stream) =>
      match stream.ending
      case Failure(error) => Raised(error)
      case End(now) => Measured(digest, Intervals(start, Times(stream.data)), requests, now - start, |stream.data|)
  }

  /** A record holds an error exactly when the engine, the query or the stream fails, that
      error unchanged; otherwise one interval per result, spanning the start to the last
      result. */
  lemma MeasureShape(answer: Answer, start: int, digest: string, requests: nat)
    ensures var b := Measure(answer, start, digest, requests);
      (b.Raised? <==> ErrorOf(answer).Some?) && (b.Raised? ==> b.error == ErrorOf(answer).value)
      && (b.Measured? ==>
            b.results == |Data(answer)| && |b.intervals| == b.results
            && Sum(b.intervals) == (if b.results == 0 then 0 else Data(answer)[b.results - 1].1 - start)
            && b.hash == digest && b.requests == requests)
  {
    IntervalsOfData(start, Data(answer));
  }

  /** The calls the engine's requests make through the counter's `fetch`. */
  function Calls(requests: seq<Input>): seq<SrcRequestCounter.Call> {
    Map((input: Input) => SrcRequestCounter.Call(input, None), requests)
  }

  method Count(counter: SrcRequestCounter.RequestCounter, requests: seq<Input>)
    requires counter.Valid()
    modifies counter
    ensures counter.Valid() && counter.calls == old(counter.calls) + Calls(requests)
  {
    for k := 0 to |requests|
      invariant counter.Valid() && counter.calls == old(counter.calls) + Calls(requests[..k])
    {
      MapSnoc((input: Input) => SrcRequestCounter.Call(input, None), requests, k);
      var _ := counter.Fetch(requests[k], None);
    }
    assert requests[..|requests|] == requests;
  }

  /** The 'data' handler over the whole stream. */
  method OnData(bindingsHash: BindingsHash, start: int, data: seq<(Binding, int)>) returns (resultCount: nat, intervals: seq<int>)
    modifies bindingsHash
    ensures resultCount == |data| && intervals == Intervals(start, Times(data))
    ensures bindingsHash.bindings == old(bindingsHash.bindings) + Bindings(data)
  {
    resultCount, intervals := 0, [];
    var previousTime := start;
    for i := 0 to |data|
      invariant resultCount == i && intervals == Intervals(start, Times(data[..i]))
      invariant bindingsHash.bindings == old(bindingsHash.bindings) + Bindings(data[..i])
      invariant previousTime == if i == 0 then start else data[i - 1].1
    {
      IntervalsSnoc(start, data, i);
      BindingsSnoc(data, i);
      AppendSnoc(old(bindingsHash.bindings), Bindings(data[..i]), data[i].0);
      bindingsHash.Add(data[i].0);
      resultCount := resultCount + 1;
      var currentTime := data[i].1;
      intervals := intervals + [currentTime - previousTime];
      previousTime := currentTime;
    }
    assert data[..|data|] == data;
  }

  class QueryRunner {
    const bindingsHash: BindingsHash
    const requestCounter: SrcRequestCounter.RequestCounter
    const resultSerializer: ResultSerializer

    constructor(bindingsHash: BindingsHash, requestCounter: SrcRequestCounter.RequestCounter, resultSerializer: ResultSerializer)
      ensures this.bindingsHash == bindingsHash && this.requestCounter == requestCounter
      ensures this.resultSerializer == resultSerializer
    {
      this.bindingsHash := bindingsHash;
      this.requestCounter := requestCounter;
      this.resultSerializer := resultSerializer;
    }

    /** `run(config, query, context)`, with `start` the clock once `queryBindings` has
        resolved and `now` the clock as the record is written. A context file that does not
        parse rejects before anything is written; otherwise exactly one record is
        serialized, to a file named by the two ids and `now`, whatever the engine does. */
    method Run(config: string, query: string, context: Option<string>, read: Reader, parse: string -> Outcome<Context>,
               create: string -> Outcome<Engine>, start: int, now: nat) returns (rejected: Option<string>)
      requires requestCounter.Valid()
      modifies bindingsHash, requestCounter, resultSerializer
      ensures requestCounter.Valid()
      ensures rejected.Some? <==> FileContext(context, read, parse).Err?
      ensures rejected.Some? ==>
        rejected.value == FileContext(context, read, parse).error && unchanged(bindingsHash, requestCounter, resultSerializer)
      ensures rejected.None? ==>
        var answer := Answered(create, config, read(query), QueryContext(FileContext(context, read, parse).value));
        var output := Output(Stem(query), Stem(config), Measure(answer, start, bindingsHash.digestOf(bindingsHash.bindings), requestCounter.GetCount()));
        bindingsHash.bindings == old(bindingsHash.bindings) + Bindings(Data(answer))
        && requestCounter.calls == old(requestCounter.calls) + Calls(Requests(answer))
        && resultSerializer.files == old(resultSerializer.files)[resultSerializer.FileOf(output, now) := output]
        && Basename(resultSerializer.FileOf(output, now)) == WrittenName(output, now)
    {
      var queryId := Stem(query);
      var configId := Stem(config);
      StemFree(query);
      StemFree(config);
      var queryString := read(query);
      var contextFromFile := FileContext(context, read, parse);
      if contextFromFile.Err? {
        return Some(contextFromFile.error);
      }
      var queryStringContext := QueryContext(contextFromFile.value);
      var output := Execute(queryString, config, queryStringContext, create, start);
      resultSerializer.Serialize(Output(queryId, configId, output), now);
      rejected := None;
    }

    /** `execute`, with a failure caught into `{ error }` by the caller. */
    method Execute(queryString: string, engineConfig: string, context: Context, create: string -> Outcome<Engine>, start: int)
      returns (output: Body)
      requires requestCounter.Valid()
      modifies bindingsHash, requestCounter
      ensures requestCounter.Valid()
      ensures bindingsHash.bindings == old(bindingsHash.bindings) + Bindings(Data(Answered(create, engineConfig, queryString, context)))
      ensures requestCounter.calls == old(requestCounter.calls) + Calls(Requests(Answered(create, engineConfig, queryString, context)))
      ensures output == Measure(Answered(create, engineConfig, queryString, context), start,
                                bindingsHash.digestOf(bindingsHash.bindings), requestCounter.GetCount())
    {
      var queryEngine := create(engineConfig);
      if queryEngine.Err? {
        return Raised(queryEngine.error);
      }
      var answer := queryEngine.value(queryString, context);
      if answer.Rejected? {
        Count(requestCounter, answer.requests);
        return Raised(answer.error);
      }
      var startTime := start;
      Count(requestCounter, answer.stream.requests);
      var resultCount, intervals := OnData(bindingsHash, startTime, answer.stream.data);
      if answer.stream.ending.Failure? {
        output := Raised(answer.stream.ending.error);
      } else {
        var hash := bindingsHash.Digest();
        output := Measured(hash, intervals, requestCounter.GetCount(), answer.stream.ending.now - startTime, resultCount);
      }
    }
  }
}
