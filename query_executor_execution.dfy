/**
 * packages/query-executor/lib/QueryExecution.ts: one query run against an engine, with the
 * request counter's `fetch` in the context. `collect` feeds each result to the bindings hash
 * and records the time since the previous result; at the end of the stream it resolves with
 * the digest, the intervals, the request count, the results and the duration since the clock
 * reading taken before `queryBindings`. An engine rejection or a stream error rejects it.
 */
module QueryExecutorExecution {
  import opened Wrappers
  import opened Seqs
  import opened Dicts
  import opened Rdf
  import opened Fetching
  import opened BindingsStreams
  import ExecutorQueryExecution
  import PackageBindingsHash

  /** `IQueryExecutionOutput` as `collect` resolves it (it never sets `error`). */
  datatype Output = Output(hash: string, requests: nat, results: nat, duration: int, intervals: seq<int>)

  /** The duration splits into the intervals and the wait from the last result (or from the
      start, when there is none) to the end of the stream. */
  lemma DurationSplits(start: int, data: seq<(Binding, int)>, now: int)
    ensures now - start == Sum(Intervals(start, Times(data))) + (now - if |data| == 0 then start else data[|data| - 1].1)
  {
    IntervalsOfData(start, data);
  }

  class QueryExecution {
    const query: string
    const context: Context
    const engine: Engine
    /** An `IRequestCounter`: the `{count, fetch}` object the request counter factory makes. */
    const fetchCounter: FetchCounter
    const bindingsHash: PackageBindingsHash.BindingsHash
    var results: nat
    var intervals: seq<int>

    ghost predicate Valid()
      reads this
    {
      |intervals| == results
    }

    constructor(query: string, context: Context, engine: Engine, fetchCounter: FetchCounter, bindingsHash: PackageBindingsHash.BindingsHash)
      ensures Valid() && results == 0 && intervals == []
      ensures this.query == query && this.context == ExecutorQueryExecution.CountingContext(context) && this.engine == engine
      ensures this.fetchCounter == fetchCounter && this.bindingsHash == bindingsHash
    {
      this.query := query;
      this.engine := engine;
      this.fetchCounter := fetchCounter;
      this.bindingsHash := bindingsHash;
      this.context := ExecutorQueryExecution.CountingContext(context);
      results := 0;
      intervals := [];
    }

    /** The answer the engine gives this execution. */
    function Answer(): Answer {
      engine(query, context)
    }

    /** `collect`, with `start` the clock reading taken before `queryBindings`: every result
        goes into the hash and counts once, with one interval each; the end of the stream
        resolves with the measurements, an error rejects. */
    method Collect(start: int) returns (r: Outcome<Output>)
      requires Valid()
      modifies this, fetchCounter, bindingsHash
      ensures Valid()
      ensures results == old(results) + |Data(Answer())|
      ensures intervals == old(intervals) + Intervals(start, Times(Data(Answer())))
      ensures bindingsHash.bindings == old(bindingsHash.bindings) + Bindings(Data(Answer()))
      ensures fetchCounter.count == old(fetchCounter.count) + |Requests(Answer())|
      ensures r.Err? <==> ErrorOf(Answer()).Some?
      ensures r.Err? ==> r.error == ErrorOf(Answer()).value
      ensures r.Ok? ==> r.value == Output(bindingsHash.Current(), fetchCounter.count, results,
                                          Answer().stream.ending.now - start, intervals)
    {
      var answer := engine(query, context);
      match answer
      case Rejected(requests, e) =>
        SendRequests(fetchCounter, requests);
        r := Err(e);
      case Resolved(stream) =>
        SendRequests(fetchCounter, stream.requests);
        OnData(start, stream.data);
        match stream.ending
        case Failure(e) =>
          r := Err(e);
        case End(now) =>
          var digest := bindingsHash.Digest();
          r := Ok(Output(digest, fetchCounter.count, results, now - start, intervals));
    }

    /** The data events, one after the other. */
    method OnData(start: int, data: seq<(Binding, int)>)
      requires Valid()
      modifies this, bindingsHash
      ensures Valid()
      ensures results == old(results) + |data|
      ensures intervals == old(intervals) + Intervals(start, Times(data))
      ensures bindingsHash.bindings == old(bindingsHash.bindings) + Bindings(data)
    {
      var previousTime := start;
      for i := 0 to |data|
        invariant Valid()
        invariant results == old(results) + i
        invariant intervals == old(intervals) + Intervals(start, Times(data[..i]))
        invariant bindingsHash.bindings == old(bindingsHash.bindings) + Bindings(data[..i])
        invariant previousTime == if i == 0 then start else data[i - 1].1
      {
        previousTime := Advance(start, data, i, previousTime, old(results), old(intervals), old(bindingsHash.bindings));
      }
      assert data[..|data|] == data;
    }

    /** One more data event, taking the measurements from those of the first i events to
        those of the first i + 1. */
    method Advance(start: int, data: seq<(Binding, int)>, i: nat, previousTime: int,
                   ghost results0: nat, ghost intervals0: seq<int>, ghost bindings0: seq<Binding>) returns (next: int)
      requires Valid() && i < |data|
      requires results == results0 + i
      requires intervals == intervals0 + Intervals(start, Times(data[..i]))
      requires bindingsHash.bindings == bindings0 + Bindings(data[..i])
      requires previousTime == if i == 0 then start else data[i - 1].1
      modifies this, bindingsHash
      ensures Valid()
      ensures results == results0 + (i + 1)
      ensures intervals == intervals0 + Intervals(start, Times(data[..i + 1]))
      ensures bindingsHash.bindings == bindings0 + Bindings(data[..i + 1])
      ensures next == data[i].1
    {
      IntervalsSnoc(start, data, i);
      BindingsSnoc(data, i);
      AppendSnoc(intervals0, Intervals(start, Times(data[..i])), data[i].1 - previousTime);
      AppendSnoc(bindings0, Bindings(data[..i]), data[i].0);
      next := OnDatum(data[i].0, previousTime, data[i].1);
    }

    /** The 'data' handler: the binding goes into the hash, the result counts, and the time
        since the previous result is recorded. */
    method OnDatum(b: Binding, previousTime: int, currentTime: int) returns (next: int)
      requires Valid()
      modifies this, bindingsHash
      ensures Valid() && next == currentTime
      ensures results == old(results) + 1
      ensures intervals == old(intervals) + [currentTime - previousTime]
      ensures bindingsHash.bindings == old(bindingsHash.bindings) + [b]
    {
      bindingsHash.Add(b);
      results := results + 1;
      intervals := intervals + [currentTime - previousTime];
      next := currentTime;
    }
  }
}
