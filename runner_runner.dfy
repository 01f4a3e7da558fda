/**
 * runner/runner.py: the experiment runner. It reports the number of executions and the longest
 * the experiment can take, then runs every query under every config `replication` times
 * through the proxy, attaching the proxy's URL log to each record the engine returns and
 * saving that record.
 *
 * The engine is given by what it does in each execution (`Executions.Attempt`): the URLs it
 * requests through the proxy and the record `query_bindings` returns, or the exception it
 * raises. Saving a record appends it to the list of saved records.
 */
module RunnerRunner {
  import opened Wrappers
  import opened Dicts
  import opened Executions
  import opened ExperimentResult
  import RunnerProxy
  import RunnerQueryEngine
  import ExperimentFile

  /** The number of executions `get_total_execution_count` reports. */
  function TotalExecutions(queries: nat, configs: nat, replication: int): int {
    queries * configs * replication
  }

  datatype Duration = Duration(days: int, hours: int, minutes: int, seconds: int)

  /** The logged maximum duration: `timeout · total` seconds through three `divmod`s, which
      floor like Dafny's division by a positive number. */
  function MaxDuration(timeout: int, total: int): (d: Duration)
    ensures d.days * 86400 + d.hours * 3600 + d.minutes * 60 + d.seconds == timeout * total
    ensures 0 <= d.hours < 24 && 0 <= d.minutes < 60 && 0 <= d.seconds < 60
  {
    var seconds := timeout * total;
    var days, remainder := seconds / (60 * 60 * 24), seconds % (60 * 60 * 24);
    var hours, remainder' := remainder / (60 * 60), remainder % (60 * 60);
    var minutes, seconds' := remainder' / 60, remainder' % 60;
    Duration(days, hours, minutes, seconds')
  }

  type Record<J> = ResultState<int, J>

  /** The records saved after the first n executions: each returned record with the URLs
      `reset()` handed over after it. */
  function Saved<J>(attempt: nat -> Attempt<Record<J>>, init: seq<string>, n: nat): seq<Record<J>> {
    if n == 0 then []
    else
      var handed := ResetOnReturn(attempt, init, n).0;
      var last := attempt(n - 1).outcome;
      Saved(attempt, init, n - 1) + (if last.Ok? then [last.value.(urls := handed[n - 1].value)] else [])
  }

  /** The URL lists of the records, concatenated. */
  function SavedUrls<J>(saved: seq<Record<J>>): seq<string> {
    if |saved| == 0 then [] else SavedUrls(saved[..|saved| - 1]) + saved[|saved| - 1].urls
  }

  /** The number of executions whose engine call returned. */
  function Returned<R>(attempt: nat -> Attempt<R>, n: nat): nat {
    if n == 0 then 0 else Returned(attempt, n - 1) + (if attempt(n - 1).outcome.Ok? then 1 else 0)
  }

  /** One execution more: a returned record is saved with the log as it was plus what the
      execution requested, and the log is emptied; otherwise the log keeps those URLs. */
  lemma SavedStep<J>(attempt: nat -> Attempt<Record<J>>, init: seq<string>, n: nat)
    ensures var pending := ResetOnReturn(attempt, init, n).1;
      var a := attempt(n);
      && ResetOnReturn(attempt, init, n + 1).1 == (if a.outcome.Ok? then [] else pending + a.requested)
      && Saved(attempt, init, n + 1) == Saved(attempt, init, n)
           + (if a.outcome.Ok? then [a.outcome.value.(urls := pending + a.requested)] else [])
  {
  }

  /** One file per returned record. */
  lemma {:induction false} SavedCount<J>(attempt: nat -> Attempt<Record<J>>, init: seq<string>, n: nat)
    ensures |Saved(attempt, init, n)| == Returned(attempt, n)
  {
    if n > 0 {
      SavedCount(attempt, init, n - 1);
    }
  }

  /** The saved records carry, in order, exactly the URL lists `reset()` handed over. */
  lemma {:induction false} SavedUrlsHanded<J>(attempt: nat -> Attempt<Record<J>>, init: seq<string>, n: nat)
    ensures SavedUrls(Saved(attempt, init, n)) == Attached(ResetOnReturn(attempt, init, n).0)
  {
    if n > 0 {
      SavedUrlsHanded(attempt, init, n - 1);
      var handed := ResetOnReturn(attempt, init, n).0;
      assert handed[..n - 1] == ResetOnReturn(attempt, init, n - 1).0;
      var s := Saved(attempt, init, n);
      assert Attached(handed) == Attached(handed[..n - 1]) + handed[n - 1].GetOr([]);
      if attempt(n - 1).outcome.Ok? {
        assert s[..|s| - 1] == Saved(attempt, init, n - 1);
        assert s[|s| - 1].urls == handed[n - 1].value;
      } else {
        assert handed[n - 1] == None;
        assert s == Saved(attempt, init, n - 1);
      }
    }
  }

  /** The saved records carry every URL requested so far except those still waiting in the
      log: none is lost and none is attached twice. */
  lemma SavedUrlsConserved<J>(attempt: nat -> Attempt<Record<J>>, init: seq<string>, n: nat)
    ensures SavedUrls(Saved(attempt, init, n)) + ResetOnReturn(attempt, init, n).1 == init + Requested(attempt, n)
  {
    SavedUrlsHanded(attempt, init, n);
    ResetOnReturnConserves(attempt, init, n);
  }

  class ExperimentRunner<J> {
    const proxy: RunnerProxy.ProxyServer
    /** What the engine does in each execution, numbered from 0. */
    const attempt: nat -> Attempt<Record<J>>

    constructor(proxy: RunnerProxy.ProxyServer, attempt: nat -> Attempt<Record<J>>)
      ensures this.proxy == proxy && this.attempt == attempt
    {
      this.proxy := proxy;
      this.attempt := attempt;
    }

    /** `execute_query` for execution k: while the engine runs, the proxy logs what it
        requests; when `query_bindings` returns, `reset()` hands the log to the record, and when
        it raises, None is returned and the log is left as it is. */
    method ExecuteQuery(k: nat) returns (r: Option<Record<J>>)
      modifies proxy
      ensures attempt(k).outcome.Ok? ==>
        r == Some(attempt(k).outcome.value.(urls := old(proxy.urls) + attempt(k).requested)) && proxy.urls == []
      ensures attempt(k).outcome.Err? ==> r == None && proxy.urls == old(proxy.urls) + attempt(k).requested
    {
      proxy.urls := proxy.urls + attempt(k).requested;
      match attempt(k).outcome
      case Ok(result) =>
        var urls := proxy.Reset();
        r := Some(result.(urls := urls));
      case Err(_) =>
        r := None;
    }

    /** `execute`: the proxy starts, each query (outer) runs under each config (middle)
        `replication` times (inner), every returned record is saved, `exec_done` counts every
        execution, and the proxy stops. */
    method Execute(queryStrings: Dict<string, string>, configs: seq<string>, replication: int)
      returns (trace: seq<Step<(string, string, nat)>>, saved: seq<Record<J>>, execDone: nat)
      modifies proxy
      ensures trace == [ProxyStart] + Runs(Nested(Keys(queryStrings), configs, Repetitions(replication))) + [ProxyStop]
      ensures execDone == |Nested(Keys(queryStrings), configs, Repetitions(replication))|
      ensures saved == Saved(attempt, old(proxy.urls), execDone)
      ensures proxy.urls == ResetOnReturn(attempt, old(proxy.urls), execDone).1
    {
      ghost var init := proxy.urls;
      var queries := Keys(queryStrings);
      var n := Repetitions(replication);
      trace := [ProxyStart];
      saved := [];
      execDone := 0;
      var q := 0;
      while q < |queries|
        invariant q <= |queries|
        invariant trace == [ProxyStart] + Runs(Nested(queries[..q], configs, n))
        invariant execDone == |Nested(queries[..q], configs, n)|
        invariant saved == Saved(attempt, init, execDone)
        invariant proxy.urls == ResetOnReturn(attempt, init, execDone).1
      {
        NestedRunsTake(queries, configs, n, q);
        trace, saved, execDone := RunQuery(queries[q], configs, n, init, trace, saved, execDone);
        q := q + 1;
      }
      assert queries[..q] == queries;
      trace := trace + [ProxyStop];
    }

    /** The middle loop: one query under every config. */
    method RunQuery(query: string, configs: seq<string>, n: nat, ghost init: seq<string>,
                    trace0: seq<Step<(string, string, nat)>>, saved0: seq<Record<J>>, done0: nat)
      returns (trace: seq<Step<(string, string, nat)>>, saved: seq<Record<J>>, execDone: nat)
      requires saved0 == Saved(attempt, init, done0)
      requires proxy.urls == ResetOnReturn(attempt, init, done0).1
      modifies proxy
      ensures trace == trace0 + Runs(Block(query, configs, n))
      ensures execDone == done0 + |Block(query, configs, n)|
      ensures saved == Saved(attempt, init, execDone)
      ensures proxy.urls == ResetOnReturn(attempt, init, execDone).1
    {
      trace, saved, execDone := trace0, saved0, done0;
      for c := 0 to |configs|
        invariant trace == trace0 + Runs(Block(query, configs[..c], n))
        invariant execDone == done0 + |Block(query, configs[..c], n)|
        invariant saved == Saved(attempt, init, execDone)
        invariant proxy.urls == ResetOnReturn(attempt, init, execDone).1
      {
        BlockRunsTake(query, configs, n, c);
        trace, saved, execDone := Replicate(query, configs[c], n, init, trace, saved, execDone);
      }
      assert configs[..|configs|] == configs;
    }

    /** The innermost loop: `replication` executions of one query under one config. */
    method Replicate(query: string, config: string, n: nat, ghost init: seq<string>,
                     trace0: seq<Step<(string, string, nat)>>, saved0: seq<Record<J>>, done0: nat)
      returns (trace: seq<Step<(string, string, nat)>>, saved: seq<Record<J>>, execDone: nat)
      requires saved0 == Saved(attempt, init, done0)
      requires proxy.urls == ResetOnReturn(attempt, init, done0).1
      modifies proxy
      ensures trace == trace0 + Runs(Reps(query, config, n))
      ensures execDone == done0 + n
      ensures saved == Saved(attempt, init, execDone)
      ensures proxy.urls == ResetOnReturn(attempt, init, execDone).1
    {
      trace, saved, execDone := trace0, saved0, done0;
      var i := 0;
      while i < n
        invariant i <= n
        invariant trace == trace0 + Runs(Reps(query, config, i))
        invariant execDone == done0 + i
        invariant saved == Saved(attempt, init, execDone)
        invariant proxy.urls == ResetOnReturn(attempt, init, execDone).1
      {
        SavedStep(attempt, init, execDone);
        var result := ExecuteQuery(execDone);
        if result.Some? {
          saved := saved + [result.value];
        }
        assert Reps(query, config, i + 1) == Reps(query, config, i) + [(query, config, i)];
        trace := trace + [Run((query, config, i))];
        execDone := execDone + 1;
        i := i + 1;
      }
    }
  }
  /** Every execution is counted, whether or not it returned: with a replication of at least
      zero the runner performs exactly the number of executions it reported. */
  lemma ExecutionsMatchTotal(queryStrings: Dict<string, string>, configs: seq<string>, replication: int)
    requires replication >= 0
    ensures |Nested(Keys(queryStrings), configs, Repetitions(replication))|
         == TotalExecutions(|queryStrings|, |configs|, replication)
  {
    NestedLength(Keys(queryStrings), configs, replication);
  }

  // ---------------------------------------------------------------- building the runner

  /** The experiment attributes `__init__` reads to build the proxy and the engine. */
  const ReadAttributes: set<string> := {
    "proxy_server_host", "proxy_server_port", "proxy_server_upstream_host", "proxy_server_upstream_port",
    "query_engine_cwd", "query_engine_bin", "query_engine_node", "query_engine_environment", "query_engine_context"}

  /** `__init__` as written: reading an attribute the experiment does not have raises. */
  function ConstructAsWritten(attributes: set<string>): (r: Outcome<()>)
    ensures r.Ok? <==> ReadAttributes <= attributes
  {
    if ReadAttributes <= attributes then Ok(()) else Err("AttributeError")
  }

  /** No experiment, created or loaded, has `query_engine_node`, so building a runner always
      raises. */
  lemma ConstructAsWrittenFails(mode: ExperimentFile.Mode)
    ensures "query_engine_node" !in ExperimentFile.Attributes(mode)
    ensures ConstructAsWritten(ExperimentFile.Attributes(mode)).Err?
  {
    assert "query_engine_node" in ReadAttributes;
  }

  /** `__init__` with the engine run by the `node` found on the search path, as the other
      engines are: the proxy and the engine take their settings from the experiment. */
  method Construct(s: ExperimentFile.Settings, dumpContext: Dict<string, ExperimentFile.Json> -> string)
    returns (proxy: RunnerProxy.ProxyServer, engine: RunnerQueryEngine.QueryEngine<ExperimentFile.Json>)
    ensures fresh(proxy) && fresh(engine)
    ensures proxy.urls == []
    ensures proxy.listenBase == RunnerProxy.Base(s.proxyHost, s.proxyPort)
    ensures proxy.proxyBase == RunnerProxy.Base(s.upstreamHost, s.upstreamPort)
    ensures engine.node == "node" && engine.cwd == s.cwd && engine.bin == s.bin && engine.env == s.environment
    ensures engine.context == RunnerQueryEngine.ContextText(Some(s.context), dumpContext)
  {
    proxy := new RunnerProxy.ProxyServer(s.proxyHost, s.proxyPort, s.upstreamHost, s.upstreamPort);
    engine := new RunnerQueryEngine.QueryEngine(s.cwd, s.bin, "node", s.environment, Some(s.context), dumpContext);
  }
}
