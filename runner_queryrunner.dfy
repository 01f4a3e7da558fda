/**
 * runner/queryrunner.ts: a runner for one query against one engine configuration. The
 * constructor builds the query context: the sources named in the query text, then the
 * entries of the `--context` JSON, then the request collector's `fetch` and the `lenient`
 * flag, each later entry overriding an earlier one of the same name. `run` never rejects:
 * an engine that cannot be built, a rejected `queryBindings` or a failing result stream
 * all give `{ error }`; a stream that ends gives the duration, the intervals, the result
 * count, the digest and the requests.
 *
 * Building the engine, parsing JSON, resolving paths, the global fetch, the hash function
 * and the clock reading taken once `queryBindings` has resolved are parameters.
 */
module RunnerQueryRunner {
  import opened Wrappers
  import opened Seqs
  import opened Strings
  import opened Dicts
  import opened Rdf
  import opened Fetching
  import opened BindingsStreams
  import RunnerBindingsHash
  import Sorting
  import RunnerRequestCollector

  // ---------------------------------------------------------------- sources in the query

  /** The characters a JavaScript regular expression ends a line at. */
  predicate IsLineTerminator(c: char) {
    c == '\n' || c == '\r' || c == '\U{2028}' || c == '\U{2029}'
  }

  /** The lines `^` and `.` see under the `m` and `u` flags: the text cut at every line
      terminator. */
  function Lines(s: string): (r: seq<string>)
    ensures |r| >= 1
    ensures forall k, i :: 0 <= k < |r| && 0 <= i < |r[k]| ==> !IsLineTerminator(r[k][i])
  {
    if |s| == 0 then [""]
    else if IsLineTerminator(s[0]) then [""] + Lines(s[1..])
    else
      var t := Lines(s[1..]);
      assert forall i :: 0 <= i < |[s[0]] + t[0]| ==> ([s[0]] + t[0])[i] == if i == 0 then s[0] else t[0][i - 1];
      [[s[0]] + t[0]] + t[1..]
  }

  /** The last position of `c` in `s`. */
  function LastIndex(s: string, c: char): (r: Option<nat>)
    ensures r.Some? ==> r.value < |s| && s[r.value] == c && forall k :: r.value < k < |s| ==> s[k] != c
    ensures r.None? ==> forall k :: 0 <= k < |s| ==> s[k] != c
  {
    if |s| == 0 then None
    else if s[|s| - 1] == c then Some(|s| - 1)
    else LastIndex(s[..|s| - 1], c)
  }

  /** What `/^(?!PREFIX).*<(.*)>/` captures on one line: nothing on a line starting with
      "PREFIX"; otherwise the greedy `.*` puts the '<' as far right as it can while a '>'
      still follows, and the greedy group runs to the line's last '>'. */
  function LineSource(line: string): seq<string> {
    if StartsWith(line, "PREFIX") then []
    else match LastIndex(line, '>')
      case None => []
      case Some(g) =>
        match LastIndex(line[..g], '<')
        case None => []
        case Some(p) => [line[p + 1..g]]
  }

  /** The regular expression matches the line with its '<' at p and its '>' at g. */
  predicate MatchAt(line: string, p: nat, g: nat) {
    !StartsWith(line, "PREFIX") && p < g < |line| && line[p] == '<' && line[g] == '>'
  }

  /** The match backtracking settles on: no '>' after g, no '<' between p and g. */
  predicate Greedy(line: string, p: nat, g: nat) {
    MatchAt(line, p, g) && (forall k :: g < k < |line| ==> line[k] != '>') && (forall k :: p < k < g ==> line[k] != '<')
  }

  /** A line yields a source exactly when the expression matches it at all, and then the
      source is the text between the greedy match's '<' and '>'. */
  lemma LineSourceIsMatch(line: string)
    ensures |LineSource(line)| <= 1
    ensures |LineSource(line)| == 1 <==> exists p: nat, g: nat :: MatchAt(line, p, g)
    ensures forall p: nat, g: nat :: Greedy(line, p, g) ==> LineSource(line) == [line[p + 1..g]]
  {
    if exists p: nat, g: nat :: MatchAt(line, p, g) {
      var p: nat, g: nat :| MatchAt(line, p, g);
      var last := LastIndex(line, '>');
      assert last.Some? && g <= last.value;
      assert line[..last.value][p] == '<';
    }
    forall p: nat, g: nat | Greedy(line, p, g) ensures LineSource(line) == [line[p + 1..g]] {
      assert LastIndex(line, '>') == Some(g);
      var q := LastIndex(line[..g], '<');
      assert line[..g][p] == '<';
      assert q == Some(p);
    }
    if |LineSource(line)| == 1 {
      var g := LastIndex(line, '>').value;
      var p := LastIndex(line[..g], '<').value;
      assert MatchAt(line, p, g);
    }
  }

  /** A source holds neither a '<' nor a line terminator. */
  lemma LineSourceFree(line: string)
    requires forall i :: 0 <= i < |line| ==> !IsLineTerminator(line[i])
    ensures forall s :: s in LineSource(line) ==> '<' !in s && forall i :: 0 <= i < |s| ==> !IsLineTerminator(s[i])
  {
    if |LineSource(line)| == 1 {
      var g := LastIndex(line, '>').value;
      var p := LastIndex(line[..g], '<').value;
      var s := line[p + 1..g];
      forall i | 0 <= i < |s| ensures s[i] != '<' && !IsLineTerminator(s[i]) {
        assert s[i] == line[..g][p + 1 + i];
      }
    }
  }

  /** `[...query.matchAll(/^(?!PREFIX).*<(.*)>/gmu)].map(match => match[1])`: `^` holds at
      the start of each line and no match runs past a line's end, so each line gives at
      most one source, in line order. */
  function QuerySources(query: string): seq<string> {
    Flattened(LineSource, Lines(query))
  }

  /** At most one source per line, and a text is a source exactly when some line yields
      it. */
  lemma QuerySourcesPerLine(query: string, s: string)
    ensures |QuerySources(query)| <= |Lines(query)|
    ensures s in QuerySources(query) <==> exists k :: 0 <= k < |Lines(query)| && LineSource(Lines(query)[k]) == [s]
  {
    SourcesBound(Lines(query));
    FlattenedMembers(LineSource, Lines(query), s);
    forall k | 0 <= k < |Lines(query)| {
      LineSourceIsMatch(Lines(query)[k]);
    }
  }

  lemma {:induction false} SourcesBound(lines: seq<string>)
    ensures |Flattened(LineSource, lines)| <= |lines|
  {
    if |lines| > 0 {
      SourcesBound(lines[..|lines| - 1]);
      LineSourceIsMatch(lines[|lines| - 1]);
    }
  }

  // ---------------------------------------------------------------- the query context

  /** `IQueryRunnerArgs`. */
  datatype Args = Args(config: string, query: string, lenient: bool, context: Option<string>, workdir: Option<string>,
                       algorithm: string, encoding: string)

  /** `args.context ? JSON.parse(args.context) : {}`: no context or an empty one gives no
      entries; otherwise the parse, which may throw. */
  function ContextEntries(context: Option<string>, parse: string -> Outcome<Context>): Outcome<Context> {
    if context.None? || context.value == "" then Ok([]) else parse(context.value)
  }

  /** `{ sources, ...parsed, fetch, lenient }`. */
  function QueryContext(query: string, parsed: Context, lenient: bool): Context {
    Put(Put(PutAll([("sources", Sources(QuerySources(query)))], parsed), "fetch", CountingFetch), "lenient", Flag(lenient))
  }

  /** `fetch` and `lenient` are always the runner's own; any other entry is the parsed
      context's when it has one, and `sources` otherwise holds the extracted sources. In
      insertion order, `sources` stays first even when the parsed context replaces it; that
      is JavaScript's own key order unless the parsed context has integer-like keys, which
      an object lists before all others. */
  lemma QueryContextEntries(query: string, parsed: Context, lenient: bool, k: string)
    requires Valid(parsed)
    ensures var c := QueryContext(query, parsed, lenient);
      Valid(c) && |c| > 0 && c[0].0 == "sources"
      && Get(c, k) == if k == "lenient" then Some(Flag(lenient))
                      else if k == "fetch" then Some(CountingFetch)
                      else if HasKey(parsed, k) then Get(parsed, k)
                      else if k == "sources" then Some(Sources(QuerySources(query)))
                      else None
  {
    var d0: Context := [("sources", Sources(QuerySources(query)))];
    var d1 := PutAll(d0, parsed);
    var d2 := Put(d1, "fetch", CountingFetch);
    GetPutAll(d0, parsed, k);
    GetIsLastValue(parsed, k);
    GetPut(d1, "fetch", CountingFetch, k);
    GetPut(d2, "lenient", Flag(lenient), k);
    assert Get(d0, k) == if k == "sources" then Some(Sources(QuerySources(query))) else None;
    PutAllKeepsFirst(d0, parsed);
    PutKeepsFirst(d1, "fetch", CountingFetch);
    PutKeepsFirst(d2, "lenient", Flag(lenient));
  }

  /** Putting entries never moves the first key. */
  lemma PutKeepsFirst(d: Context, k: string, v: Value)
    requires |d| > 0
    ensures |Put(d, k, v)| > 0 && Put(d, k, v)[0].0 == d[0].0
  {
    if HasKey(d, k) {
      assert Keys(Put(d, k, v))[0] == Keys(d)[0];
    }
  }

  lemma {:induction false} PutAllKeepsFirst(d: Context, p: seq<(string, Value)>)
    requires |d| > 0
    ensures |PutAll(d, p)| > 0 && PutAll(d, p)[0].0 == d[0].0
    decreases |p|
  {
    if |p| > 0 {
      var init := p[..|p| - 1];
      assert p == init + [p[|p| - 1]];
      PutAllSnoc(d, init, p[|p| - 1]);
      PutAllKeepsFirst(d, init);
      PutKeepsFirst(PutAll(d, init), p[|p| - 1].0, p[|p| - 1].1);
    }
  }

  // ---------------------------------------------------------------- running

  /** `IQueryExecution`. */
  datatype Execution =
    | Failure(error: string)
    | Success(duration: int, resultCount: nat, resultHash: string, resultIntervals: seq<int>, requestCount: nat, requestUrls: seq<string>)

  /** What `run` resolves to for an answer, given the digest and the collector's count
      and links when the stream ends. */
  function Executed(answer: Answer, start: int, digest: string, requestCount: nat, requestUrls: seq<string>): Execution {
    match answer
    case Rejected(_, error) => Execution.Failure(error)
    case Resolved(stream) =>
      match stream.ending
      case Failure(error) => Execution.Failure(error)
      case End(now) => Success(now - start, |stream.data|, digest, Intervals(start, Times(stream.data)), requestCount, requestUrls)
  }

  /** `run` fails exactly when building the engine, the query or the stream fails, with that
      error; otherwise there is one interval per result and together they span the time from
      the start reading to the last result. */
  lemma ExecutedShape(answer: Answer, start: int, digest: string, requestCount: nat, requestUrls: seq<string>)
    ensures var e := Executed(answer, start, digest, requestCount, requestUrls);
      (e.Failure? <==> ErrorOf(answer).Some?) && (e.Failure? ==> e.error == ErrorOf(answer).value)
      && (e.Success? ==>
            e.resultCount == |Data(answer)| && |e.resultIntervals| == e.resultCount
            && Sum(e.resultIntervals) == (if e.resultCount == 0 then 0 else Data(answer)[e.resultCount - 1].1 - start)
            && e.resultHash == digest && e.requestCount == requestCount && e.requestUrls == requestUrls)
  {
    IntervalsOfData(start, Data(answer));
  }

  /** The engine's requests through the collector's `fetch`. */
  method Collect(collector: RunnerRequestCollector.RequestCollector, requests: seq<Input>)
    requires collector.Valid()
    modifies collector
    ensures collector.Valid() && collector.calls == old(collector.calls) + requests
  {
    for k := 0 to |requests|
      invariant collector.Valid() && collector.calls == old(collector.calls) + requests[..k]
    {
      assert requests[..k + 1] == requests[..k] + [requests[k]];
      var _ := collector.Fetch(requests[k], None);
    }
    assert requests[..|requests|] == requests;
  }

  /** The 'data' handler over the whole stream: each binding into the hash, one result
      more, the time since the previous result. */
  method OnData(bindingsHash: RunnerBindingsHash.BindingsHash, start: int, data: seq<(Binding, int)>)
    returns (resultCount: nat, resultIntervals: seq<int>)
    modifies bindingsHash
    ensures resultCount == |data| && resultIntervals == Intervals(start, Times(data))
    ensures bindingsHash.bindings == old(bindingsHash.bindings) + Bindings(data)
  {
    resultCount, resultIntervals := 0, [];
    var previousTime := start;
    for i := 0 to |data|
      invariant resultCount == i && resultIntervals == Intervals(start, Times(data[..i]))
      invariant bindingsHash.bindings == old(bindingsHash.bindings) + Bindings(data[..i])
      invariant previousTime == if i == 0 then start else data[i - 1].1
    {
      IntervalsSnoc(start, data, i);
      BindingsSnoc(data, i);
      AppendSnoc(old(bindingsHash.bindings), Bindings(data[..i]), data[i].0);
      var currentTime := data[i].1;
      resultIntervals := resultIntervals + [currentTime - previousTime];
      previousTime := currentTime;
      bindingsHash.Add(data[i].0);
      resultCount := resultCount + 1;
    }
    assert data[..|data|] == data;
  }

  class QueryRunner {
    const bindingsHash: RunnerBindingsHash.BindingsHash
    const requestCollector: RunnerRequestCollector.RequestCollector
    const mainModulePath: string
    const configPath: string
    const queryString: string
    const queryStringContext: Context

    /** The constructor once the `--context` JSON has parsed to `parsed`. */
    constructor(args: Args, parsed: Context, hash: RunnerBindingsHash.HashFunction, compare: Sorting.Comparator,
                network: FetchFunction, resolve: string -> string, cwd: string)
      ensures fresh(bindingsHash) && fresh(requestCollector)
      ensures bindingsHash.algorithm == args.algorithm && bindingsHash.encoding == args.encoding
      ensures bindingsHash.hash == hash && bindingsHash.compare == compare && bindingsHash.bindings == []
      ensures requestCollector.Valid() && requestCollector.args == RunnerRequestCollector.Args(true, true)
      ensures requestCollector.network == network && requestCollector.calls == []
      ensures mainModulePath == resolve(args.workdir.GetOr(cwd)) && configPath == resolve(args.config)
      ensures queryString == args.query && queryStringContext == QueryContext(args.query, parsed, args.lenient)
    {
      bindingsHash := new RunnerBindingsHash.BindingsHash(args.algorithm, args.encoding, hash, compare);
      requestCollector := new RunnerRequestCollector.RequestCollector(RunnerRequestCollector.Args(true, true), network);
      mainModulePath := resolve(args.workdir.GetOr(cwd));
      configPath := resolve(args.config);
      queryString := args.query;
      queryStringContext := QueryContext(args.query, parsed, args.lenient);
    }

    /** What the engine built from the configuration answers, or the error building it
        rejects with. */
    function Answered(create: (string, string) -> Outcome<Engine>): Answer {
      match create(configPath, mainModulePath)
      case Err(e) => Rejected([], e)
      case Ok(engine) => engine(queryString, queryStringContext)
    }

    /** `run()`, with `start` the clock reading once `queryBindings` has resolved: every
        failure becomes `{ error }`; a stream that ends gives its measurements. The hash and
        the collector belong to the runner, so they also hold what earlier runs added. */
    method Run(create: (string, string) -> Outcome<Engine>, start: int) returns (e: Execution)
      requires requestCollector.Valid()
      modifies bindingsHash, requestCollector
      ensures requestCollector.Valid()
      ensures bindingsHash.bindings == old(bindingsHash.bindings) + Bindings(Data(Answered(create)))
      ensures requestCollector.calls == old(requestCollector.calls) + Requests(Answered(create))
      ensures e == Executed(Answered(create), start,
                            bindingsHash.hash(bindingsHash.algorithm, bindingsHash.encoding, Concat(RunnerBindingsHash.HashInput(bindingsHash.compare, bindingsHash.bindings))),
                            requestCollector.GetCount(), requestCollector.GetLinks())
    {
      var engine := create(configPath, mainModulePath);
      if engine.Err? {
        return Execution.Failure(engine.error);
      }
      var answer := engine.value(queryString, queryStringContext);
      if answer.Rejected? {
        Collect(requestCollector, answer.requests);
        return Execution.Failure(answer.error);
      }
      var startTime := start;
      Collect(requestCollector, answer.stream.requests);
      var resultCount, resultIntervals := OnData(bindingsHash, startTime, answer.stream.data);
      if answer.stream.ending.Failure? {
        e := Execution.Failure(answer.stream.ending.error);
      } else {
        var now := answer.stream.ending.now;
        var resultHash := bindingsHash.Digest();
        e := Success(now - startTime, resultCount, resultHash, resultIntervals, requestCollector.GetCount(), requestCollector.GetLinks());
      }
    }
  }

  /** `new QueryRunner(args)`: it throws when the `--context` JSON does not parse. */
  method NewQueryRunner(args: Args, parse: string -> Outcome<Context>, hash: RunnerBindingsHash.HashFunction,
                        compare: Sorting.Comparator, network: FetchFunction, resolve: string -> string, cwd: string) returns (r: Outcome<QueryRunner>)
    ensures r.Err? <==> ContextEntries(args.context, parse).Err?
    ensures r.Ok? ==> fresh(r.value) && r.value.queryStringContext == QueryContext(args.query, ContextEntries(args.context, parse).value, args.lenient)
  {
    var parsed := ContextEntries(args.context, parse);
    if parsed.Err? {
      return Err(parsed.error);
    }
    var runner := new QueryRunner(args, parsed.value, hash, compare, network, resolve, cwd);
    r := Ok(runner);
  }
}
