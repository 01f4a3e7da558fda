/**
 * chronomunica/benchmark.py: the older benchmark driver. It loads the queries of its query
 * files, starts the proxy, runs every query `replication` times in dictionary order, stores
 * each outcome under the query id, and serialises the dictionary.
 *
 * The engine is given by what it does in each execution (`Executions.Attempt`), numbered
 * from 0 in loop order. The call itself is modelled by the number of positional arguments
 * it passes: `query` needs three besides `self` (chronomunica/queryengine.py), and a call
 * with any other number raises `TypeError` while binding them, before the engine starts.
 */
module ChronoBenchmark {
  import opened Wrappers
  import opened Strings
  import opened Dicts
  import opened Executions
  import QueryFiles
  import ChronoProxy

  /** One stored outcome: the engine's result with the URLs `reset()` handed over, or
      `{"error": str(ex)}`. */
  datatype Entry<R> = Answered(result: R, requestedUrls: seq<string>) | Failed(error: string)

  /** `query(self, query_string, timeout, config_path)`: three positional parameters. */
  const QueryParameters: nat := 3

  /** `str(ex)` of the `TypeError` raised for a call with `given` positional arguments. */
  function ArityMessage(given: nat): string {
    if given == 0 then "QueryEngine.query() missing 3 required positional arguments: 'query_string', 'timeout', and 'config_path'"
    else if given == 1 then "QueryEngine.query() missing 2 required positional arguments: 'timeout' and 'config_path'"
    else if given == 2 then "QueryEngine.query() missing 1 required positional argument: 'config_path'"
    else "QueryEngine.query() takes 4 positional arguments but " + NatToDecimal(given + 1) + " were given"
  }

  /** What a call with `given` positional arguments does, when the engine would do `engine`. */
  function QueryCall<R>(given: nat, engine: Attempt<R>): (a: Attempt<R>)
    ensures given == QueryParameters ==> a == engine
    ensures given != QueryParameters ==> a.requested == [] && a.outcome == Err(ArityMessage(given))
  {
    if given == QueryParameters then engine else Attempt([], Err(ArityMessage(given)))
  }

  /** The calls of every execution. */
  function Calls<R>(attempt: nat -> Attempt<R>, given: nat): nat -> Attempt<R> {
    (k: nat) => QueryCall(given, attempt(k))
  }

  /** What execution k stores: the proxy's log is handed over only when the call returns, so
      a failed execution's URLs go to the next execution that returns. */
  function EntryAt<R>(calls: nat -> Attempt<R>, init: seq<string>, k: nat): (e: Entry<R>)
    ensures e.Answered? <==> calls(k).outcome.Ok?
    ensures e.Failed? ==> e.error == calls(k).outcome.error
  {
    var log := ResetOnReturn(calls, init, k).1 + calls(k).requested;
    match calls(k).outcome
    case Ok(r) => Answered(r, log)
    case Err(msg) => Failed(msg)
  }

  /** The executions before query q when each query runs n times. */
  function Offset(q: nat, n: nat): nat {
    q * n
  }

  /** The list of one query: n executions from `start` on. */
  function Row<R>(calls: nat -> Attempt<R>, init: seq<string>, start: nat, n: nat): (r: seq<Entry<R>>)
    ensures |r| == n
    ensures forall i :: 0 <= i < n ==> r[i] == EntryAt(calls, init, start + i)
  {
    seq(n, i requires 0 <= i < n => EntryAt(calls, init, start + i))
  }

  /** Each query id with its list, in loop order. */
  function Table<R>(qids: seq<string>, n: nat, calls: nat -> Attempt<R>, init: seq<string>): (t: seq<(string, seq<Entry<R>>)>)
    ensures |t| == |qids|
    ensures forall j :: 0 <= j < |qids| ==> t[j] == (qids[j], Row(calls, init, Offset(j, n), n))
  {
    seq(|qids|, j requires 0 <= j < |qids| => (qids[j], Row(calls, init, Offset(j, n), n)))
  }

  /** The dictionary `execute` fills: `results[query_id]` for every query in turn. */
  function Results<R>(qids: seq<string>, n: nat, calls: nat -> Attempt<R>, init: seq<string>): Dict<string, seq<Entry<R>>> {
    PutAll([], Table(qids, n, calls, init))
  }

  /** With distinct query ids, every query gets its own entry, in loop order, holding exactly
      n outcomes: those of its own executions. */
  lemma ResultsPerQuery<R>(qids: seq<string>, n: nat, calls: nat -> Attempt<R>, init: seq<string>)
    requires forall i, j :: 0 <= i < j < |qids| ==> qids[i] != qids[j]
    ensures Results(qids, n, calls, init) == Table(qids, n, calls, init)
    ensures Keys(Results(qids, n, calls, init)) == qids
    ensures forall j :: 0 <= j < |qids| ==> |Results(qids, n, calls, init)[j].1| == n
  {
    PutAllFresh([], Table(qids, n, calls, init));
  }

  /** The ids of a dictionary's keys are pairwise distinct. */
  lemma QueryIdsDistinct(queries: Dict<string, string>)
    requires Dicts.Valid(queries)
    ensures forall i, j :: 0 <= i < j < |Keys(queries)| ==> Keys(queries)[i] != Keys(queries)[j]
  {
  }

  /** An answered execution carries exactly what `reset()` handed over after it. */
  lemma EntryHanded<R>(calls: nat -> Attempt<R>, init: seq<string>, k: nat)
    ensures EntryAt(calls, init, k).Answered? <==> ResetOnReturn(calls, init, k + 1).0[k].Some?
    ensures EntryAt(calls, init, k).Answered? ==>
      EntryAt(calls, init, k).requestedUrls == ResetOnReturn(calls, init, k + 1).0[k].value
  {
  }

  /** The URLs attached to the answered entries among the first K executions, in order. */
  function AnsweredUrls<R>(calls: nat -> Attempt<R>, init: seq<string>, K: nat): seq<string> {
    if K == 0 then []
    else
      var e := EntryAt(calls, init, K - 1);
      AnsweredUrls(calls, init, K - 1) + (if e.Answered? then e.requestedUrls else [])
  }

  /** No URL is lost or attached twice: the answered entries' URLs, followed by what is still
      in the log, are everything the log held and everything the executions requested. */
  lemma {:induction false} AnsweredUrlsConserved<R>(calls: nat -> Attempt<R>, init: seq<string>, K: nat)
    ensures AnsweredUrls(calls, init, K) + ResetOnReturn(calls, init, K).1 == init + Requested(calls, K)
  {
    AnsweredUrlsHanded(calls, init, K);
    ResetOnReturnConserves(calls, init, K);
  }

  lemma {:induction false} AnsweredUrlsHanded<R>(calls: nat -> Attempt<R>, init: seq<string>, K: nat)
    ensures AnsweredUrls(calls, init, K) == Attached(ResetOnReturn(calls, init, K).0)
  {
    if K > 0 {
      AnsweredUrlsHanded(calls, init, K - 1);
      var handed := ResetOnReturn(calls, init, K).0;
      assert handed[..K - 1] == ResetOnReturn(calls, init, K - 1).0;
      assert Attached(handed) == Attached(handed[..K - 1]) + handed[K - 1].GetOr([]);
      EntryHanded(calls, init, K - 1);
    }
  }

  /** As written, `execute_query` passes only the query string: every call raises before the
      engine starts, so every execution stores the `TypeError` text and the proxy's log is
      never handed over. */
  lemma {:induction false} AsWrittenNeverAnswers<R>(attempt: nat -> Attempt<R>, init: seq<string>, k: nat)
    ensures EntryAt(Calls(attempt, 1), init, k) == Failed(ArityMessage(1))
    ensures ResetOnReturn(Calls(attempt, 1), init, k).1 == init
  {
    var calls := Calls(attempt, 1);
    assert calls(k) == QueryCall(1, attempt(k));
    if k > 0 {
      AsWrittenNeverAnswers(attempt, init, k - 1);
      assert calls(k - 1) == QueryCall(1, attempt(k - 1));
    }
  }

  /** With the three arguments `query` takes, each execution does what the engine does. */
  lemma CorrectedCallsEngine<R>(attempt: nat -> Attempt<R>, k: nat)
    ensures Calls(attempt, QueryParameters)(k) == attempt(k)
  {
  }

  class Benchmark<R> {
    const proxy: ChronoProxy.ProxyServer
    /** What the engine does in each execution, numbered from 0 in loop order. */
    const attempt: nat -> Attempt<R>
    const resultsPath: string
    const replication: int
    const queries: Dict<string, string>

    /** `__init__`: the settings of the manifest, and the queries of each query file (a
        (file URI, text) pair): split on "\n\nPREFIX", stripped and keyed `<URI>#<i>`. */
    constructor(proxy: ChronoProxy.ProxyServer, attempt: nat -> Attempt<R>, resultsPath: string,
                replication: int, queryFiles: seq<(string, string)>)
      ensures this.proxy == proxy && this.attempt == attempt
      ensures this.resultsPath == resultsPath && this.replication == replication
      ensures this.queries == QueryFiles.QueryDict(QueryFiles.StrippedQueries, queryFiles)
    {
      this.proxy := proxy;
      this.attempt := attempt;
      this.resultsPath := resultsPath;
      this.replication := replication;
      var loaded := QueryFiles.LoadQueries(queryFiles);
      this.queries := loaded;
    }

    function Qids(): seq<string> {
      Keys(queries)
    }

    /** `range(0, self.replication)`. */
    function N(): nat {
      Repetitions(replication)
    }

    /** `execute_query` with `given` positional arguments for execution k: while the engine
        runs, the proxy logs what it requests; a returned result gets the log handed over by
        `reset()`, and an exception is stored as its text with the log left as it is. */
    method ExecuteQuery(given: nat, k: nat) returns (e: Entry<R>)
      modifies proxy
      ensures var a := QueryCall(given, attempt(k));
        && (a.outcome.Ok? ==> e == Answered(a.outcome.value, old(proxy.urls) + a.requested) && proxy.urls == [])
        && (a.outcome.Err? ==> e == Failed(a.outcome.error) && proxy.urls == old(proxy.urls) + a.requested)
    {
      var a := QueryCall(given, attempt(k));
      proxy.urls := proxy.urls + a.requested;
      match a.outcome
      case Ok(result) =>
        var urls := proxy.Reset();
        e := Answered(result, urls);
      case Err(msg) =>
        e := Failed(msg);
    }

    /** `execute`, with the engine called with the arguments it takes: every query, in
        dictionary order, runs `replication` times; `executions_done` starts at 1 and ends one
        past `executions_total`. */
    method Execute() returns (results: Dict<string, seq<Entry<R>>>, executionsDone: nat)
      modifies proxy
      ensures results == Results(Qids(), N(), Calls(attempt, QueryParameters), old(proxy.urls))
      ensures executionsDone == 1 + Offset(|Qids()|, N())
      ensures proxy.urls == ResetOnReturn(Calls(attempt, QueryParameters), old(proxy.urls), Offset(|Qids()|, N())).1
    {
      ghost var init := proxy.urls;
      ghost var calls := Calls(attempt, QueryParameters);
      var qids := Qids();
      results := [];
      executionsDone := 1;
      var q := 0;
      while q < |qids|
        invariant q <= |qids|
        invariant executionsDone == 1 + Offset(q, N())
        invariant results == PutAll([], Table(qids[..q], N(), calls, init))
        invariant proxy.urls == ResetOnReturn(calls, init, Offset(q, N())).1
      {
        var row;
        row, executionsDone := Replicate(init, executionsDone);
        assert Table(qids[..q + 1], N(), calls, init) == Table(qids[..q], N(), calls, init) + [(qids[q], row)];
        PutAllSnoc([], Table(qids[..q], N(), calls, init), (qids[q], row));
        results := Put(results, qids[q], row);
        MulSucc(q, N());
        q := q + 1;
      }
      assert qids[..q] == qids;
    }

    /** The inner loop: the `replication` executions of one query, from execution
        `executionsDone - 1` on. */
    method Replicate(ghost init: seq<string>, done0: nat) returns (row: seq<Entry<R>>, executionsDone: nat)
      requires done0 >= 1
      requires proxy.urls == ResetOnReturn(Calls(attempt, QueryParameters), init, done0 - 1).1
      modifies proxy
      ensures row == Row(Calls(attempt, QueryParameters), init, done0 - 1, N())
      ensures executionsDone == done0 + N()
      ensures proxy.urls == ResetOnReturn(Calls(attempt, QueryParameters), init, executionsDone - 1).1
    {
      ghost var calls := Calls(attempt, QueryParameters);
      row := [];
      executionsDone := done0;
      var i := 0;
      while i < N()
        invariant i <= N()
        invariant executionsDone == done0 + i
        invariant row == Row(calls, init, done0 - 1, i)
        invariant proxy.urls == ResetOnReturn(calls, init, executionsDone - 1).1
      {
        var e := ExecuteQuery(QueryParameters, executionsDone - 1);
        row := row + [e];
        executionsDone := executionsDone + 1;
        i := i + 1;
      }
    }
  }

  /** The count the log reports is the number of executions: each query `replication` times. */
  lemma ExecutionsMatchTotal(queries: Dict<string, string>, replication: int)
    requires replication >= 0
    ensures Offset(|Keys(queries)|, Repetitions(replication)) == |queries| * replication
  {
  }
}
