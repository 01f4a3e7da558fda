/**
 * tool/benchmark.py: the benchmark tool. It merges the queries of its query files (kept as
 * split, keyed `<file stem>-<i>`), runs each `repeat` times through the Node runner with the
 * configured environment overlaid on its own, and stores, per query id, each parsed
 * measurement or the error text.
 *
 * The runner process is given by what it does in each execution, numbered from 0 in loop
 * order: it exits with its standard output, runs past the timeout, or fails with an
 * exception text. JSON decoding into a `QueryExecutionResult` is the function `parse`, whose
 * error is `str(ex)`. Reading and writing files is left to the caller.
 */
module ToolBenchmark {
  import opened Wrappers
  import opened Strings
  import opened Dicts
  import opened Executions
  import QueryFiles

  // ---------------------------------------------------------------- loading queries

  /** `path.name.split(".")[0]`. */
  function FileId(name: string): string {
    FirstPiece(name, ".")
  }

  /** `f"{query_file_id}-{i}"`. */
  function QueryId(fileId: string, i: nat): string {
    fileId + "-" + NatToDecimal(i)
  }

  /** The queries of one file never share an id. */
  lemma QueryIdInjective(fileId: string, i: nat, j: nat)
    requires QueryId(fileId, i) == QueryId(fileId, j)
    ensures i == j
  {
    var a, b := QueryId(fileId, i), QueryId(fileId, j);
    assert a[|fileId| + 1..] == NatToDecimal(i);
    assert b[|fileId| + 1..] == NatToDecimal(j);
    NatToDecimalInjective(i, j);
  }

  /** The (id, query) pairs of one file: the pieces of the split with `PREFIX` given back,
      not stripped. */
  function Entries(name: string, text: string): (r: seq<(string, string)>)
    ensures |r| == |QueryFiles.QueryTexts(text)|
    ensures forall i :: 0 <= i < |r| ==> r[i] == (QueryId(FileId(name), i), QueryFiles.QueryTexts(text)[i])
  {
    var qs := QueryFiles.QueryTexts(text);
    seq(|qs|, i requires 0 <= i < |qs| => (QueryId(FileId(name), i), qs[i]))
  }

  /** `load_queries`: one entry per query, in file order. Since nothing is stripped, joining
      the queries with the blank lines the split removed gives back the file's text. */
  method LoadQueries(name: string, text: string) returns (output: Dict<string, string>)
    ensures output == Entries(name, text) && Dicts.Valid(output)
    ensures |output| == CountOccurrences(text, QueryFiles.Separator) + 1
    ensures Join(Values(output), "\n\n") == text
  {
    var queries := QueryFiles.QueryTexts(text);
    var fileId := FileId(name);
    ghost var e := Entries(name, text);
    output := [];
    var i := 0;
    while i < |queries|
      invariant i <= |queries|
      invariant output == e[..i]
    {
      forall j | 0 <= j < i ensures output[j].0 != QueryId(fileId, i) {
        if output[j].0 == QueryId(fileId, i) {
          QueryIdInjective(fileId, j, i);
        }
      }
      output := Put(output, QueryId(fileId, i), queries[i]);
      i := i + 1;
    }
    forall a, b | 0 <= a < b < |output| ensures output[a].0 != output[b].0 {
      if output[a].0 == output[b].0 {
        QueryIdInjective(fileId, a, b);
      }
    }
    assert Values(output) == queries;
    QueryFiles.QueryTextsJoin(text);
  }

  /** `queries | load_queries(f)` for each file in turn: a later file's query replaces an
      earlier one with the same id, in the earlier one's place. */
  function Merged(files: seq<(string, string)>): Dict<string, string> {
    if |files| == 0 then []
    else PutAll(Merged(files[..|files| - 1]), Entries(files[|files| - 1].0, files[|files| - 1].1))
  }

  /** The merged dictionary is a dictionary, and each query of the last file is found under
      its own id whatever came before: two files with the same stem collide. */
  lemma {:induction false} MergedLastFile(files: seq<(string, string)>, i: nat)
    requires |files| > 0 && i < |QueryFiles.QueryTexts(files[|files| - 1].1)|
    ensures Dicts.Valid(Merged(files))
    ensures Get(Merged(files), QueryId(FileId(files[|files| - 1].0), i)) == Some(QueryFiles.QueryTexts(files[|files| - 1].1)[i])
  {
    var (name, text) := files[|files| - 1];
    var e := Entries(name, text);
    var k := QueryId(FileId(name), i);
    MergedValid(files[..|files| - 1]);
    GetPutAll(Merged(files[..|files| - 1]), e, k);
    forall a, b | 0 <= a < b < |e| ensures e[a].0 != e[b].0 {
      if e[a].0 == e[b].0 {
        QueryIdInjective(FileId(name), a, b);
      }
    }
    LastValueAt(e, i);
  }

  lemma {:induction false} MergedValid(files: seq<(string, string)>)
    ensures Dicts.Valid(Merged(files))
  {
    if |files| > 0 {
      MergedValid(files[..|files| - 1]);
      GetPutAll(Merged(files[..|files| - 1]), Entries(files[|files| - 1].0, files[|files| - 1].1), "");
    }
  }

  /** The loop over the query files. */
  method MergeQueries(files: seq<(string, string)>) returns (queries: Dict<string, string>)
    ensures queries == Merged(files)
  {
    queries := [];
    var f := 0;
    while f < |files|
      invariant f <= |files|
      invariant queries == Merged(files[..f])
    {
      var loaded := LoadQueries(files[f].0, files[f].1);
      assert files[..f + 1][..f] == files[..f];
      queries := PutAll(queries, loaded);
      f := f + 1;
    }
    assert files[..f] == files;
  }

  // ---------------------------------------------------------------- one execution

  datatype ExecutionResult = ExecutionResult(duration: int, resultCount: int, resultHash: int,
                                             resultIntervals: seq<int>, requestCount: int, requestUrls: seq<string>)

  /** `QueryExecution`: the timeout as a `timedelta`, in microseconds. */
  datatype Execution = Execution(query: string, context: string, config: string, workdir: string,
                                 timeoutMicros: int, environment: Dict<string, string>)

  /** What `check_output` is given. */
  datatype Launch = Launch(args: seq<string>, timeout: int, env: Dict<string, string>, cwd: string)

  /** What the runner process does: exit with its output, run past the timeout, or fail
      (a non-zero exit or a launch failure) with the exception's text. */
  datatype Process = Exited(stdout: string) | Expired | Raised(message: string)

  /** `timedelta(seconds=s)`. */
  function Seconds(s: int): int {
    s * 1000000
  }

  /** `int(td.total_seconds())`: truncation toward zero. */
  function WholeSeconds(micros: int): int {
    if micros >= 0 then micros / 1000000 else -((-micros) / 1000000)
  }

  /** A timeout given in whole seconds reaches `check_output` unchanged, for either sign. */
  lemma WholeSecondsOfSeconds(s: int)
    ensures WholeSeconds(Seconds(s)) == s
  {
    if s < 0 {
      assert -Seconds(s) == Seconds(-s);
    }
  }

  /** `environ.copy()` with each configured variable set in turn. */
  method Overlay(environ: Dict<string, string>, environment: Dict<string, string>) returns (env: Dict<string, string>)
    ensures env == PutAll(environ, environment)
  {
    env := environ;
    var i := 0;
    while i < |environment|
      invariant i <= |environment|
      invariant env == PutAll(environ, environment[..i])
    {
      assert environment[..i + 1] == environment[..i] + [environment[i]];
      PutAllSnoc(environ, environment[..i], environment[i]);
      env := Put(env, environment[i].0, environment[i].1);
      i := i + 1;
    }
    assert environment[..i] == environment;
  }

  /** The runner sees every configured variable with its configured value, and every other
      variable as in the tool's own environment. */
  lemma OverlayLookup(environ: Dict<string, string>, environment: Dict<string, string>, k: string)
    requires Dicts.Valid(environ) && Dicts.Valid(environment)
    ensures Dicts.Valid(PutAll(environ, environment))
    ensures Get(PutAll(environ, environment), k) == if HasKey(environment, k) then Get(environment, k) else Get(environ, k)
  {
    GetPutAll(environ, environment, k);
    GetIsLastValue(environment, k);
  }

  /** The command, timeout, environment and directory of an execution. */
  function LaunchOf(environ: Dict<string, string>, runner: string, e: Execution): (l: Launch)
    ensures l.args == ["node", runner, "--query", e.query, "--config", e.config]
    ensures l.timeout == WholeSeconds(e.timeoutMicros)
    ensures l.env == PutAll(environ, e.environment) && l.cwd == e.workdir
  {
    Launch(["node", runner, "--query", e.query, "--config", e.config], WholeSeconds(e.timeoutMicros),
           PutAll(environ, e.environment), e.workdir)
  }

  /** The serialised context is built for each execution but never passed to the runner. */
  lemma LaunchIgnoresContext(environ: Dict<string, string>, runner: string, e: Execution, context: string)
    ensures LaunchOf(environ, runner, e.(context := context)) == LaunchOf(environ, runner, e)
  {
  }

  /** `"{" + output.split("{", maxsplit=1)[1]`: the output from its first brace on, or None
      where indexing the split raises `IndexError`. */
  function FromFirstBrace(output: string): (r: Option<string>)
    ensures r.Some? <==> Contains(output, "{")
    ensures r.Some? ==> StartsWith(r.value, "{") && EndsWith(output, r.value)
  {
    match IndexOf(output, "{")
    case None => None
    case Some(i) =>
      IndexOfLeftmost(output, "{");
      assert output[i..] == "{" + output[i + 1..];
      Some("{" + output[i + 1..])
  }

  /** Lines the runner prints before its JSON (none holding a brace) are skipped. */
  lemma FromFirstBraceSkips(noise: string, output: string)
    requires forall c :: c in noise ==> c != '{'
    ensures FromFirstBrace(noise + output) == FromFirstBrace(output)
  {
    IndexAfterNoise(noise, output);
    if IndexOf(output, "{").Some? {
      var i := IndexOf(output, "{").value;
      IndexOfLeftmost(output, "{");
      assert (noise + output)[|noise| + i + 1..] == output[i + 1..];
    }
  }

  /** The first brace of the output, shifted past brace-free noise. */
  lemma {:induction false} IndexAfterNoise(noise: string, output: string)
    requires forall c :: c in noise ==> c != '{'
    ensures IndexOf(noise + output, "{") == if IndexOf(output, "{").Some? then Some(|noise| + IndexOf(output, "{").value) else None
  {
    if |noise| > 0 {
      var s := noise + output;
      assert s[..1] == [noise[0]] && noise[0] in noise;
      assert s[1..] == noise[1..] + output;
      assert forall c :: c in noise[1..] ==> c in noise;
      IndexAfterNoise(noise[1..], output);
    } else {
      assert noise + output == output;
    }
  }

  const IndexErrorText: string := "list index out of range"

  /** `execute_query`'s value once the process has run: the measurement, or the text of what
      went wrong. */
  function ExecuteQuery(parse: string -> Outcome<ExecutionResult>, timeout: int, p: Process): (o: Outcome<ExecutionResult>)
    ensures p.Expired? ==> o == Err("Timeout after " + IntToDecimal(timeout) + " seconds")
    ensures p.Raised? ==> o == Err(p.message)
    ensures p.Exited? && !Contains(p.stdout, "{") ==> o == Err(IndexErrorText)
  {
    match p
    case Expired => Err("Timeout after " + IntToDecimal(timeout) + " seconds")
    case Raised(message) => Err(message)
    case Exited(stdout) =>
      match FromFirstBrace(stdout)
      case None => Err(IndexErrorText)
      case Some(json) => parse(json)
  }

  /** A measurement comes only from an exit whose output holds JSON, and is what `parse`
      makes of that JSON; noise before it changes nothing. */
  lemma ExecuteQueryMeasured(parse: string -> Outcome<ExecutionResult>, timeout: int, p: Process, noise: string)
    requires forall c :: c in noise ==> c != '{'
    ensures ExecuteQuery(parse, timeout, p).Ok? ==>
      p.Exited? && Contains(p.stdout, "{") && ExecuteQuery(parse, timeout, p) == parse(FromFirstBrace(p.stdout).value)
    ensures p.Exited? ==> ExecuteQuery(parse, timeout, Exited(noise + p.stdout)) == ExecuteQuery(parse, timeout, p)
  {
    if p.Exited? {
      FromFirstBraceSkips(noise, p.stdout);
    }
  }

  // ---------------------------------------------------------------- the benchmark

  datatype BenchmarkConfiguration = BenchmarkConfiguration(config: string, workdir: string, output: string,
                                                           timeout: int, repeat: int, context: string,
                                                           environment: Dict<string, string>)

  /** The execution built for a query: every one carries the configured settings. */
  function ExecutionFor(config: BenchmarkConfiguration, query: string): Execution {
    Execution(query, config.context, config.config, config.workdir, Seconds(config.timeout), config.environment)
  }

  /** The executions before query q when each runs n times. */
  function Offset(q: nat, n: nat): nat {
    q * n
  }

  /** The list of one query: n outcomes from execution `start` on. */
  function Row(parse: string -> Outcome<ExecutionResult>, timeout: int, run: nat -> Process, start: nat, n: nat)
    : (r: seq<Outcome<ExecutionResult>>)
    ensures |r| == n
    ensures forall i :: 0 <= i < n ==> r[i] == ExecuteQuery(parse, timeout, run(start + i))
  {
    seq(n, i requires 0 <= i < n => ExecuteQuery(parse, timeout, run(start + i)))
  }

  /** `execution_results` after the first q queries: their lists filled, the rest empty. */
  function Filled(parse: string -> Outcome<ExecutionResult>, timeout: int, run: nat -> Process,
                  qids: seq<string>, q: nat, n: nat): (d: Dict<string, seq<Outcome<ExecutionResult>>>)
    ensures |d| == |qids| && Keys(d) == qids
  {
    seq(|qids|, j requires 0 <= j < |qids| => (qids[j], if j < q then Row(parse, timeout, run, Offset(j, n), n) else []))
  }

  /** Filling the list of query q. */
  lemma FilledNext(parse: string -> Outcome<ExecutionResult>, timeout: int, run: nat -> Process,
                   qids: seq<string>, q: nat, n: nat)
    requires q < |qids|
    ensures Filled(parse, timeout, run, qids, q + 1, n)
         == Filled(parse, timeout, run, qids, q, n)[q := (qids[q], Row(parse, timeout, run, Offset(q, n), n))]
  {
  }

  /** Every launch of the first queries: each query's `repeat` launches in turn. */
  function Launches(environ: Dict<string, string>, runner: string, config: BenchmarkConfiguration,
                    queries: seq<string>, n: nat): seq<Launch> {
    if |queries| == 0 then []
    else
      Launches(environ, runner, config, queries[..|queries| - 1], n)
      + seq(n, i requires 0 <= i < n => LaunchOf(environ, runner, ExecutionFor(config, queries[|queries| - 1])))
  }

  /** Every launch passes its own query and the configured config, timeout, environment and
      directory. */
  lemma {:induction false} LaunchesCarry(environ: Dict<string, string>, runner: string, config: BenchmarkConfiguration,
                                         queries: seq<string>, n: nat)
    ensures |Launches(environ, runner, config, queries, n)| == Offset(|queries|, n)
    ensures forall l :: l in Launches(environ, runner, config, queries, n) ==>
      |l.args| == 6 && l.args[..3] == ["node", runner, "--query"] && l.args[4..] == ["--config", config.config] && l.args[3] in queries
      && l.timeout == config.timeout && l.env == PutAll(environ, config.environment) && l.cwd == config.workdir
  {
    if |queries| > 0 {
      var last := queries[|queries| - 1];
      LaunchesCarry(environ, runner, config, queries[..|queries| - 1], n);
      MulSucc(|queries| - 1, n);
      WholeSecondsOfSeconds(config.timeout);
      var l := LaunchOf(environ, runner, ExecutionFor(config, last));
      assert l.args[..3] == ["node", runner, "--query"] && l.args[4..] == ["--config", config.config];
      forall m | m in Launches(environ, runner, config, queries[..|queries| - 1], n) ensures |m.args| == 6 && m.args[3] in queries {
        assert m.args[3] in queries[..|queries| - 1];
      }
    }
  }

  /** `run_benchmark` from the loaded files on: the merged queries, the launches in order,
      and each query id with its `repeat` outcomes; `executed_queries` starts at 1 and ends
      one past `total_queries`. */
  method RunBenchmark(environ: Dict<string, string>, runner: string, config: BenchmarkConfiguration,
                      files: seq<(string, string)>, run: nat -> Process, parse: string -> Outcome<ExecutionResult>)
    returns (launches: seq<Launch>, results: Dict<string, seq<Outcome<ExecutionResult>>>, executed: nat)
    ensures var queries := Merged(files);
      && launches == Launches(environ, runner, config, Values(queries), Repetitions(config.repeat))
      && results == Filled(parse, config.timeout, run, Keys(queries), |queries|, Repetitions(config.repeat))
      && executed == 1 + Offset(|queries|, Repetitions(config.repeat))
  {
    var queries := MergeQueries(files);
    MergedValid(files);
    var qids, texts := Keys(queries), Values(queries);
    var n := Repetitions(config.repeat);
    results := seq(|qids|, j requires 0 <= j < |qids| => (qids[j], []));
    FilledEmpty(parse, config.timeout, run, qids, n);
    launches := [];
    executed := 1;
    var q := 0;
    while q < |qids|
      invariant q <= |qids|
      invariant executed == 1 + Offset(q, n)
      invariant launches == Launches(environ, runner, config, texts[..q], n)
      invariant results == Filled(parse, config.timeout, run, qids, q, n)
    {
      launches, results, executed := RunQuery(environ, runner, config, qids, texts, q, run, parse, launches, results, executed);
      q := q + 1;
    }
    assert texts[..q] == texts;
  }

  /** Before any query runs, every list is empty. */
  lemma FilledEmpty(parse: string -> Outcome<ExecutionResult>, timeout: int, run: nat -> Process, qids: seq<string>, n: nat)
    ensures Filled(parse, timeout, run, qids, 0, n) == seq(|qids|, j requires 0 <= j < |qids| => (qids[j], []))
  {
  }

  /** One pass of the outer loop: query q's `repeat` executions, its launches appended and
      its list filled. */
  method RunQuery(environ: Dict<string, string>, runner: string, config: BenchmarkConfiguration,
                  qids: seq<string>, texts: seq<string>, q: nat, run: nat -> Process, parse: string -> Outcome<ExecutionResult>,
                  launches0: seq<Launch>, results0: Dict<string, seq<Outcome<ExecutionResult>>>, executed0: nat)
    returns (launches: seq<Launch>, results: Dict<string, seq<Outcome<ExecutionResult>>>, executed: nat)
    requires q < |qids| == |texts| && forall i, j :: 0 <= i < j < |qids| ==> qids[i] != qids[j]
    requires executed0 == 1 + Offset(q, Repetitions(config.repeat))
    requires launches0 == Launches(environ, runner, config, texts[..q], Repetitions(config.repeat))
    requires results0 == Filled(parse, config.timeout, run, qids, q, Repetitions(config.repeat))
    ensures executed == 1 + Offset(q + 1, Repetitions(config.repeat))
    ensures launches == Launches(environ, runner, config, texts[..q + 1], Repetitions(config.repeat))
    ensures results == Filled(parse, config.timeout, run, qids, q + 1, Repetitions(config.repeat))
  {
    var n := Repetitions(config.repeat);
    var row, more;
    row, more, executed := Repeat(environ, runner, config, texts[q], run, parse, executed0);
    assert texts[..q + 1][..q] == texts[..q];
    launches := launches0 + more;
    FilledNext(parse, config.timeout, run, qids, q, n);
    assert Dicts.Valid(results0) by {
      assert forall i :: 0 <= i < |results0| ==> results0[i].0 == Keys(results0)[i];
    }
    PutAt(results0, q, row);
    results := Put(results0, qids[q], row);
    MulSucc(q, n);
  }

  /** The inner loop: the `repeat` executions of one query, from execution `executed - 1` on. */
  method Repeat(environ: Dict<string, string>, runner: string, config: BenchmarkConfiguration, query: string,
                run: nat -> Process, parse: string -> Outcome<ExecutionResult>, executed0: nat)
    returns (row: seq<Outcome<ExecutionResult>>, launches: seq<Launch>, executed: nat)
    requires executed0 >= 1
    ensures row == Row(parse, config.timeout, run, executed0 - 1, Repetitions(config.repeat))
    ensures launches == seq(Repetitions(config.repeat), i requires 0 <= i < Repetitions(config.repeat) =>
                            LaunchOf(environ, runner, ExecutionFor(config, query)))
    ensures executed == executed0 + Repetitions(config.repeat)
  {
    var n := Repetitions(config.repeat);
    row, launches, executed := [], [], executed0;
    var i := 0;
    while i < n
      invariant i <= n && executed == executed0 + i
      invariant row == Row(parse, config.timeout, run, executed0 - 1, i)
      invariant launches == seq(i, j requires 0 <= j < i => LaunchOf(environ, runner, ExecutionFor(config, query)))
    {
      var execution := ExecutionFor(config, query);
      var env := Overlay(environ, execution.environment);
      var launch := Launch(["node", runner, "--query", execution.query, "--config", execution.config],
                           WholeSeconds(execution.timeoutMicros), env, execution.workdir);
      WholeSecondsOfSeconds(config.timeout);
      assert launch == LaunchOf(environ, runner, execution);
      var result := ExecuteQuery(parse, launch.timeout, run(executed - 1));
      row := row + [result];
      launches := launches + [launch];
      executed := executed + 1;
      i := i + 1;
    }
  }

  /** With distinct ids, every merged query ends with exactly `repeat` entries (none for a
      negative count), each the outcome of its own execution. */
  lemma ResultsPerQuery(parse: string -> Outcome<ExecutionResult>, timeout: int, run: nat -> Process,
                        qids: seq<string>, n: nat, j: nat, i: nat)
    requires j < |qids| && i < n
    ensures |Filled(parse, timeout, run, qids, |qids|, n)[j].1| == n
    ensures Filled(parse, timeout, run, qids, |qids|, n)[j].1[i] == ExecuteQuery(parse, timeout, run(Offset(j, n) + i))
  {
  }
}
