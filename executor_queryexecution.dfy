/**
 * packages/executor/lib/QueryExecution.ts: one query run against an engine. The context is
 * the caller's with `fetch` replaced by the fetch counter's; `collect` feeds each result to
 * the bindings hash and records the time since the previous result; `metrics` reads the
 * digest, the intervals, the request count and the result count.
 */
module ExecutorQueryExecution {
  import opened Wrappers
  import opened Seqs
  import opened Dicts
  import opened Rdf
  import opened Fetching
  import opened BindingsStreams
  import PackageBindingsHash
  import Sorting

  /** `IQueryExecutionOutput`. */
  datatype Output = Output(hash: string, intervals: seq<int>, requests: nat, results: nat, error: Option<string>)

  /** The metrics of a run on a fresh hash and a fresh counter whose engine gives `answer`,
      with `start` the clock reading before the query: only this run's results and requests
      are in them. */
  function FreshMetrics(answer: Answer, start: int, algorithm: string, encoding: string, hash: PackageBindingsHash.PushedDigest,
                        compare: Sorting.Comparator): Output {
    Output(hash(algorithm, encoding, PackageBindingsHash.SortedValues(compare, Bindings(Data(answer)))),
           Intervals(start, Times(Data(answer))), |Requests(answer)|, |Data(answer)|, ErrorOf(answer))
  }

  /** A fresh run's metrics hold one interval per result, the intervals add up to the time
      from the start to the last result, and the error is missing exactly when the stream
      ended normally. A rejected query reports no result, its error, and the requests the
      engine sent before rejecting. */
  lemma FreshMetricsShape(answer: Answer, start: int, algorithm: string, encoding: string, hash: PackageBindingsHash.PushedDigest,
                          compare: Sorting.Comparator)
    ensures var r := FreshMetrics(answer, start, algorithm, encoding, hash, compare);
      |r.intervals| == r.results == |Data(answer)|
      && Sum(r.intervals) == (if r.results == 0 then 0 else Data(answer)[r.results - 1].1 - start)
      && (r.error.None? <==> answer.Resolved? && answer.stream.ending.End?)
      && (answer.Rejected? ==> r.results == 0 && r.error == Some(answer.error) && r.requests == |answer.requests|)
  {
    IntervalsOfData(start, Data(answer));
  }

  /** `{...context, fetch}`: the caller's context with `fetch` set to the counter's. */
  function CountingContext(context: Context): (r: Context)
    ensures Valid(context) ==> Valid(r) && Get(r, "fetch") == Some(CountingFetch)
    ensures Valid(context) ==> forall k :: k != "fetch" ==> Get(r, k) == Get(context, k)
  {
    var r := Put(context, "fetch", CountingFetch);
    if Valid(context) then
      assert forall k :: Get(r, k) == if k == "fetch" then Some(CountingFetch) else Get(context, k) by {
        forall k { GetPut(context, "fetch", CountingFetch, k); }
      }
      r
    else r
  }

  class QueryExecution {
    const query: string
    const context: Context
    const engine: Engine
    const fetchCounter: FetchCounter
    const bindingsHash: PackageBindingsHash.BindingsHash
    var results: nat
    var intervals: seq<int>

    ghost predicate Valid()
      reads this
    {
      |intervals| == results
    }

    constructor(query: string, context: Context, engine: Engine, fetchCounter: FetchCounter, bindingsHash: PackageBindingsHash.BindingsHash)
      ensures Valid() && results == 0 && intervals == []
      ensures this.query == query && this.context == CountingContext(context) && this.engine == engine
      ensures this.fetchCounter == fetchCounter && this.bindingsHash == bindingsHash
    {
      this.query := query;
      this.engine := engine;
      this.fetchCounter := fetchCounter;
      this.bindingsHash := bindingsHash;
      this.context := CountingContext(context);
      results := 0;
      intervals := [];
    }

    /** The answer the engine gives this execution. */
    function Answer(): Answer {
      engine(query, context)
    }

    /** `collect`, with `start` the clock reading taken before `queryBindings`: every result
        goes into the hash and counts once, with one interval each; the promise rejects with
        the engine's or the stream's error. */
    method Collect(start: int) returns (r: Outcome<()>)
      requires Valid()
      modifies this, fetchCounter, bindingsHash
      ensures Valid()
      ensures results == old(results) + |Data(Answer())|
      ensures intervals == old(intervals) + Intervals(start, Times(Data(Answer())))
      ensures bindingsHash.bindings == old(bindingsHash.bindings) + Bindings(Data(Answer()))
      ensures fetchCounter.count == old(fetchCounter.count) + |Requests(Answer())|
      ensures r.Err? <==> ErrorOf(Answer()).Some?
      ensures r.Err? ==> r.error == ErrorOf(Answer()).value
    {
      var answer := engine(query, context);
      match answer
      case Rejected(requests, e) =>
        SendRequests(fetchCounter, requests);
        r := Err(e);
      case Resolved(stream) =>
        SendRequests(fetchCounter, stream.requests);
        OnData(start, stream.data);
        r := if stream.ending.Failure? then Err(stream.ending.error) else Ok(());
    }

    /** The data events, one after the other. */
    method OnData(start: int, data: seq<(Binding, int)>)
      requires Valid()
      modifies this, bindingsHash
      ensures Valid()
      ensures results == old(results) + |data|
      ensures intervals == old(intervals) + Intervals(start, Times(data))
      ensures bindingsHash.bindings == old(bindingsHash.bindings) + Bindings(data)
    {
      var previousTime := start;
      for i := 0 to |data|
        invariant Valid()
        invariant results == old(results) + i
        invariant intervals == old(intervals) + Intervals(start, Times(data[..i]))
        invariant bindingsHash.bindings == old(bindingsHash.bindings) + Bindings(data[..i])
        invariant previousTime == if i == 0 then start else data[i - 1].1
      {
        previousTime := Advance(start, data, i, previousTime, old(results), old(intervals), old(bindingsHash.bindings));
      }
      assert data[..|data|] == data;
    }

    /** One more data event, taking the measurements from those of the first i events to
        those of the first i + 1. */
    method Advance(start: int, data: seq<(Binding, int)>, i: nat, previousTime: int,
                   ghost results0: nat, ghost intervals0: seq<int>, ghost bindings0: seq<Binding>) returns (next: int)
      requires Valid() && i < |data|
      requires results == results0 + i
      requires intervals == intervals0 + Intervals(start, Times(data[..i]))
      requires bindingsHash.bindings == bindings0 + Bindings(data[..i])
      requires previousTime == if i == 0 then start else data[i - 1].1
      modifies this, bindingsHash
      ensures Valid()
      ensures results == results0 + (i + 1)
      ensures intervals == intervals0 + Intervals(start, Times(data[..i + 1]))
      ensures bindingsHash.bindings == bindings0 + Bindings(data[..i + 1])
      ensures next == data[i].1
    {
      IntervalsSnoc(start, data, i);
      BindingsSnoc(data, i);
      AppendSnoc(intervals0, Intervals(start, Times(data[..i])), data[i].1 - previousTime);
      AppendSnoc(bindings0, Bindings(data[..i]), data[i].0);
      next := OnDatum(data[i].0, previousTime, data[i].1);
    }

    /** The 'data' handler: the binding goes into the hash, the result counts, and the time
        since the previous result is recorded. */
    method OnDatum(b: Binding, previousTime: int, currentTime: int) returns (next: int)
      requires Valid()
      modifies this, bindingsHash
      ensures Valid() && next == currentTime
      ensures results == old(results) + 1
      ensures intervals == old(intervals) + [currentTime - previousTime]
      ensures bindingsHash.bindings == old(bindingsHash.bindings) + [b]
    {
      bindingsHash.Add(b);
      results := results + 1;
      intervals := intervals + [currentTime - previousTime];
      next := currentTime;
    }

    /** `metrics(error)`: a snapshot of the measurements; nothing changes. */
    method Metrics(error: Option<string>) returns (m: Output)
      ensures m == Output(bindingsHash.Current(), intervals, fetchCounter.count, results, error)
    {
      var digest := bindingsHash.Digest();
      m := Output(digest, intervals, fetchCounter.count, results, error);
    }
  }
}
