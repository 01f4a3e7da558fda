/**
 * packages/query-executor/lib/QueryExecutionManager.ts: for every query file, in order, runs
 * the query up to `repeatExecution` times, each run with a new engine, bindings hash and
 * request counter, records `{query, engine, ...metrics}` per run, stops repeating a file
 * after its first failed run, and writes the file's records to
 * `<resultSerializationPath>/<name before its first '.'>.json`. A failed engine creation
 * rejects `execute`.
 *
 * As written, the `metrics` the loop calls is not a member of this package's
 * `QueryExecution`, so every run ends in a TypeError (see `ExecuteAsWritten`). The class
 * models the loop with the metrics packages/executor's `QueryExecution` gives.
 *
 * Reading a file, creating the engine for a run and the clock reading before its
 * `queryBindings` are parameters; the written files are returned.
 */
module QueryExecutorManager {
  import opened Wrappers
  import opened Fetching
  import opened BindingsStreams
  import opened NodePaths
  import ExecutorQueryExecution
  import QueryExecutorExecution
  import PackageBindingsHash
  import Sorting

  type Reader = string -> string
  type Output = ExecutorQueryExecution.Output

  /** `IQueryExecutionManagerArgs`, with each factory given by what it builds from: the
      hash factory by its algorithm, encoding, hash and `localeCompare`, the request counter
      factory by the global fetch. The context is `{}` when none is given. */
  datatype Args = Args(algorithm: string, encoding: string, hash: PackageBindingsHash.PushedDigest, compare: Sorting.Comparator,
                       network: FetchFunction, resultSerializationPath: string, repeatExecution: int,
                       queryEngineConfig: string, queryContext: Context, queryFiles: seq<string>)

  /** `{query, engine, ...output}`. */
  datatype Entry = Entry(query: string, engine: string, metrics: Output)

  /** One `writeFileSync`: the path and the records serialised into it. */
  datatype Written = Written(path: string, entries: seq<Entry>)

  /** The runs of one file so far, and the engine creation error that rejected `execute`. */
  datatype Runs = Runs(entries: seq<Entry>, failure: Option<string>)

  /** The files written so far, and the engine creation error that rejected `execute`. */
  datatype Log = Log(written: seq<Written>, failure: Option<string>)

  /** How many runs a file gets at most. */
  function Repetitions(args: Args): nat {
    if args.repeatExecution > 0 then args.repeatExecution else 0
  }

  /** Where a query file's records are written. */
  function OutputPath(args: Args, file: string): string {
    JoinPath(args.resultSerializationPath, Stem(file) + ".json")
  }

  /** `OutputPath` as the function `execute` applies to each query file. */
  function OutputPathOf(args: Args): string -> string {
    file => OutputPath(args, file)
  }

  /** The file written for a query file is named after it: its name up to the first '.',
      then ".json". */
  lemma OutputPathName(args: Args, file: string)
    ensures Basename(OutputPath(args, file)) == Stem(file) + ".json"
  {
    StemFree(file);
    assert '/' !in Stem(file) + ".json";
    BasenameOfJoin(args.resultSerializationPath, Stem(file) + ".json");
  }

  /** Whether a run failed: its `collect` rejected, so its metrics carry the error. */
  predicate Failed(e: Entry) {
    e.metrics.error.Some?
  }

  /** The first n runs of the k-th file, with `measure` giving the metrics of a run: a run
      happens only while no earlier run failed and no engine creation was rejected. */
  function Repeated(args: Args, k: nat, n: nat, create: (nat, nat) -> Outcome<Engine>, measure: (nat, nat, Engine) -> Output): (r: Runs)
    requires k < |args.queryFiles|
    ensures |r.entries| <= n
  {
    if n == 0 then Runs([], None)
    else
      var prev := Repeated(args, k, n - 1, create, measure);
      if prev.failure.Some? || (|prev.entries| > 0 && Failed(prev.entries[|prev.entries| - 1])) || |prev.entries| < n - 1 then prev
      else match create(k, n - 1)
        case Err(e) => Runs(prev.entries, Some(e))
        case Ok(engine) => Runs(prev.entries + [Entry(args.queryFiles[k], args.queryEngineConfig, measure(k, n - 1, engine))], None)
  }

  /** A file gets `repeatExecution` records when no run fails, and otherwise stops at the
      first failed run, which is recorded: no record but the last can hold an error. */
  lemma {:induction false} RepeatedShape(args: Args, k: nat, n: nat, create: (nat, nat) -> Outcome<Engine>, measure: (nat, nat, Engine) -> Output)
    requires k < |args.queryFiles|
    ensures var r := Repeated(args, k, n, create, measure);
      (forall j :: 0 <= j < |r.entries| - 1 ==> !Failed(r.entries[j]))
      && (r.failure.None? && |r.entries| < n ==> |r.entries| > 0 && Failed(r.entries[|r.entries| - 1]))
      && (r.failure.Some? ==> create(k, |r.entries|) == Err(r.failure.value))
  {
    if n > 0 {
      RepeatedShape(args, k, n - 1, create, measure);
      var prev := Repeated(args, k, n - 1, create, measure);
      var r := Repeated(args, k, n, create, measure);
      if r != prev {
        assert forall j :: 0 <= j < |prev.entries| ==> r.entries[j] == prev.entries[j];
      }
    }
  }

  /** The j-th record of a file is the j-th run's, on the engine created for it. */
  lemma {:induction false} RepeatedEntry(args: Args, k: nat, n: nat, j: nat, create: (nat, nat) -> Outcome<Engine>, measure: (nat, nat, Engine) -> Output)
    requires k < |args.queryFiles| && j < |Repeated(args, k, n, create, measure).entries|
    ensures create(k, j).Ok?
    ensures Repeated(args, k, n, create, measure).entries[j] == Entry(args.queryFiles[k], args.queryEngineConfig, measure(k, j, create(k, j).value))
  {
    var prev := Repeated(args, k, n - 1, create, measure);
    if j < |prev.entries| {
      RepeatedEntry(args, k, n - 1, j, create, measure);
    }
  }

  /** The runs of every query file, as `FileRuns` gives them to `Writes`. */
  function FileRuns(args: Args, create: (nat, nat) -> Outcome<Engine>, measure: (nat, nat, Engine) -> Output): nat -> Runs {
    (k: nat) => if k < |args.queryFiles| then Repeated(args, k, Repetitions(args), create, measure) else Runs([], None)
  }

  /** The files written for the first n of `files`, and the rejection of `execute`, with
      `runs` giving the runs of each file and `path` the file its records go to. */
  function Writes(files: seq<string>, n: nat, runs: nat -> Runs, path: string -> string): (r: Log)
    requires n <= |files|
    ensures |r.written| <= n
  {
    if n == 0 then Log([], None)
    else
      var prev := Writes(files, n - 1, runs, path);
      if prev.failure.Some? then prev
      else if runs(n - 1).failure.Some? then Log(prev.written, runs(n - 1).failure)
      else Log(prev.written + [Written(path(files[n - 1]), runs(n - 1).entries)], None)
  }

  /** One file written per query file, in order, each with that file's runs: the failure
      flag starts afresh for every file, so a failure stops only its own file. */
  lemma {:induction false} WrittenFile(files: seq<string>, n: nat, k: nat, runs: nat -> Runs, path: string -> string)
    requires n <= |files| && k < |Writes(files, n, runs, path).written|
    ensures Writes(files, n, runs, path).written[k] == Written(path(files[k]), runs(k).entries)
  {
    var prev := Writes(files, n - 1, runs, path);
    if k < |prev.written| {
      WrittenFile(files, n - 1, k, runs, path);
    } else {
      WrittenCount(files, n - 1, runs, path);
    }
  }

  /** Every query file is written unless an engine creation rejects `execute`. */
  lemma {:induction false} WrittenCount(files: seq<string>, n: nat, runs: nat -> Runs, path: string -> string)
    requires n <= |files|
    ensures Writes(files, n, runs, path).failure.None? <==> |Writes(files, n, runs, path).written| == n
  {
    if n > 0 {
      WrittenCount(files, n - 1, runs, path);
    }
  }

  /** Once `execute` has rejected, later files change nothing. */
  lemma {:induction false} RejectionSticks(files: seq<string>, m: nat, n: nat, runs: nat -> Runs, path: string -> string)
    requires m <= n <= |files|
    requires Writes(files, m, runs, path).failure.Some?
    ensures Writes(files, n, runs, path) == Writes(files, m, runs, path)
    decreases n - m
  {
    if m < n {
      RejectionSticks(files, m, n - 1, runs, path);
    }
  }

  /** After the loop: either every file is done, or `execute` has rejected and later files
      change nothing. */
  lemma WritesSettled(files: seq<string>, k: nat, runs: nat -> Runs, path: string -> string)
    requires k <= |files|
    requires k == |files| || Writes(files, k, runs, path).failure.Some?
    ensures Writes(files, |files|, runs, path) == Writes(files, k, runs, path)
  {
    if k < |files| {
      RejectionSticks(files, k, |files|, runs, path);
    }
  }

  /** Whether a file's runs have stopped: an engine creation rejected, or the last run
      failed. */
  predicate Stopped(r: Runs) {
    r.failure.Some? || (|r.entries| > 0 && Failed(r.entries[|r.entries| - 1]))
  }

  /** After the loop over the repetitions: either all are done, or the runs have stopped
      and further repetitions add nothing. */
  lemma RunsSettled(args: Args, k: nat, repeat: nat, create: (nat, nat) -> Outcome<Engine>, measure: (nat, nat, Engine) -> Output)
    requires k < |args.queryFiles| && repeat <= Repetitions(args)
    requires repeat == Repetitions(args) || Stopped(Repeated(args, k, repeat, create, measure))
    ensures Repeated(args, k, Repetitions(args), create, measure) == Repeated(args, k, repeat, create, measure)
  {
    if repeat < Repetitions(args) {
      RunsStop(args, k, repeat, Repetitions(args), create, measure);
    }
  }

  /** Once a file's runs have stopped, further repetitions add nothing. */
  lemma {:induction false} RunsStop(args: Args, k: nat, m: nat, n: nat, create: (nat, nat) -> Outcome<Engine>, measure: (nat, nat, Engine) -> Output)
    requires k < |args.queryFiles| && m <= n
    requires Stopped(Repeated(args, k, m, create, measure))
    ensures Repeated(args, k, n, create, measure) == Repeated(args, k, m, create, measure)
    decreases n - m
  {
    if m < n {
      RunsStop(args, k, m, n - 1, create, measure);
    }
  }

  /** The metrics of the j-th run of the k-th file, as `execute` measures them. */
  function Measure(args: Args, read: Reader, clock: (nat, nat) -> int): (nat, nat, Engine) -> Output {
    (k: nat, j: nat, engine: Engine) =>
      if k < |args.queryFiles| then
        ExecutorQueryExecution.FreshMetrics(engine(read(args.queryFiles[k]), ExecutorQueryExecution.CountingContext(args.queryContext)),
                                            clock(k, j), args.algorithm, args.encoding, args.hash, args.compare)
      else ExecutorQueryExecution.Output("", [], 0, 0, None)
  }

  /** The text of the TypeError a call of a missing method throws. */
  const MetricsMissing := "TypeError: execution.metrics is not a function"

  /** The snapshot the loop asks a run for, in the form packages/executor's `QueryExecution`
      gives it: the digest, the intervals, the request count, the results and the error. */
  method Metrics(execution: QueryExecutorExecution.QueryExecution, error: Option<string>) returns (m: Output)
    ensures m == ExecutorQueryExecution.Output(execution.bindingsHash.Current(), execution.intervals,
                                               execution.fetchCounter.count, execution.results, error)
  {
    var digest := execution.bindingsHash.Digest();
    m := ExecutorQueryExecution.Output(digest, execution.intervals, execution.fetchCounter.count, execution.results, error);
  }

  class QueryExecutionManager {
    const args: Args

    constructor(args: Args)
      ensures this.args == args
    {
      this.args := args;
    }

    /** `execute`: the files written, and the rejection if an engine creation fails. */
    method Execute(read: Reader, create: (nat, nat) -> Outcome<Engine>, clock: (nat, nat) -> int) returns (written: seq<Written>, r: Outcome<()>)
      ensures Log(written, if r.Err? then Some(r.error) else None)
           == Writes(args.queryFiles, |args.queryFiles|, FileRuns(args, create, Measure(args, read, clock)), OutputPathOf(args))
    {
      ghost var runsOf, pathOf := FileRuns(args, create, Measure(args, read, clock)), OutputPathOf(args);
      written := [];
      for k := 0 to |args.queryFiles|
        invariant Writes(args.queryFiles, k, runsOf, pathOf) == Log(written, None)
      {
        var failure;
        written, failure := WriteNext(k, read, create, clock, written, runsOf, pathOf);
        if failure.Some? {
          RejectionSticks(args.queryFiles, k + 1, |args.queryFiles|, runsOf, pathOf);
          return written, Err(failure.value);
        }
      }
      r := Ok(());
    }

    /** One pass of the loop over the files: the k-th file's runs, and its result file
        unless they failed. */
    method WriteNext(k: nat, read: Reader, create: (nat, nat) -> Outcome<Engine>, clock: (nat, nat) -> int, written0: seq<Written>,
                     ghost runsOf: nat -> Runs, ghost pathOf: string -> string)
      returns (written: seq<Written>, failure: Option<string>)
      requires k < |args.queryFiles|
      requires runsOf == FileRuns(args, create, Measure(args, read, clock)) && pathOf == OutputPathOf(args)
      requires Writes(args.queryFiles, k, runsOf, pathOf) == Log(written0, None)
      ensures Writes(args.queryFiles, k + 1, runsOf, pathOf) == Log(written, failure)
    {
      var runs := ExecuteFile(k, read, create, clock);
      failure := runs.failure;
      written := if failure.Some? then written0 else written0 + [Written(OutputPath(args, args.queryFiles[k]), runs.entries)];
    }

    /** The repetitions of the k-th file. */
    method ExecuteFile(k: nat, read: Reader, create: (nat, nat) -> Outcome<Engine>, clock: (nat, nat) -> int) returns (runs: Runs)
      requires k < |args.queryFiles|
      ensures runs == Repeated(args, k, Repetitions(args), create, Measure(args, read, clock))
    {
      runs := Runs([], None);
      var errorOccurred := false;
      var repeat := 0;
      while repeat < args.repeatExecution && runs.failure.None? && !errorOccurred
        invariant 0 <= repeat <= Repetitions(args)
        invariant Repeated(args, k, repeat, create, Measure(args, read, clock)) == runs
        invariant errorOccurred <==> Stopped(runs) && runs.failure.None?
        invariant !Stopped(runs) ==> |runs.entries| == repeat
        decreases args.repeatExecution - repeat
      {
        runs, errorOccurred := RepeatNext(k, repeat, read, create, clock, runs);
        repeat := repeat + 1;
      }
      RunsSettled(args, k, repeat, create, Measure(args, read, clock));
    }

    /** One pass of the loop over the repetitions: a new engine, then a run on it, unless
        creating the engine rejects. */
    method RepeatNext(k: nat, repeat: nat, read: Reader, create: (nat, nat) -> Outcome<Engine>, clock: (nat, nat) -> int, runs0: Runs)
      returns (runs: Runs, errorOccurred: bool)
      requires k < |args.queryFiles|
      requires Repeated(args, k, repeat, create, Measure(args, read, clock)) == runs0
      requires !Stopped(runs0) && |runs0.entries| == repeat
      ensures Repeated(args, k, repeat + 1, create, Measure(args, read, clock)) == runs
      ensures errorOccurred <==> Stopped(runs) && runs.failure.None?
      ensures !Stopped(runs) ==> |runs.entries| == repeat + 1
    {
      var engine := create(k, repeat);
      if engine.Err? {
        return Runs(runs0.entries, Some(engine.error)), false;
      }
      var output := Run(k, repeat, engine.value, read, clock);
      runs := Runs(runs0.entries + [Entry(args.queryFiles[k], args.queryEngineConfig, output)], None);
      errorOccurred := output.error.Some?;
    }

    /** One run: a fresh hash and request counter, `collect`, then the metrics with the
        error `collect` rejected with, if any. */
    method Run(k: nat, j: nat, engine: Engine, read: Reader, clock: (nat, nat) -> int) returns (output: Output)
      requires k < |args.queryFiles|
      ensures output == Measure(args, read, clock)(k, j, engine)
    {
      var file, start := args.queryFiles[k], clock(k, j);
      var bindingsHash := new PackageBindingsHash.BindingsHash(args.algorithm, args.encoding, args.hash, args.compare);
      var fetchCounter := new FetchCounter(args.network);
      var execution := new QueryExecutorExecution.QueryExecution(read(file), args.queryContext, engine, fetchCounter, bindingsHash);
      ghost var answer := engine(read(file), ExecutorQueryExecution.CountingContext(args.queryContext));
      ghost var expected := ExecutorQueryExecution.FreshMetrics(answer, start, args.algorithm, args.encoding, args.hash, args.compare);
      assert Measure(args, read, clock)(k, j, engine) == expected;
      assert execution.Answer() == answer;
      var result := execution.Collect(start);
      assert bindingsHash.bindings == Bindings(Data(answer));
      var executionError := if result.Err? then Some(result.error) else None;
      assert executionError == ErrorOf(answer);
      output := Metrics(execution, executionError);
    }

    /** `execute` as written: the first run of the first file reaches the missing `metrics`
        and rejects with a TypeError, so no file is ever written unless there is no run at
        all. */
    method ExecuteAsWritten(read: Reader, create: (nat, nat) -> Outcome<Engine>, clock: (nat, nat) -> int) returns (written: seq<Written>, r: Outcome<()>)
      ensures |args.queryFiles| > 0 && args.repeatExecution > 0 ==> written == [] && r.Err?
      ensures |args.queryFiles| > 0 && args.repeatExecution > 0 && create(0, 0).Ok? ==> r == Err(MetricsMissing)
      ensures args.repeatExecution <= 0 ==> r.Ok? && |written| == |args.queryFiles|
      ensures forall k :: 0 <= k < |written| ==> written[k].entries == []
    {
      written := [];
      for k := 0 to |args.queryFiles|
        invariant k > 0 ==> args.repeatExecution <= 0
        invariant |written| == k && forall m :: 0 <= m < k ==> written[m].entries == []
      {
        var entries: seq<Entry> := [];
        if 0 < args.repeatExecution {
          var engine := create(k, 0);
          if engine.Err? {
            return written, Err(engine.error);
          }
          var bindingsHash := new PackageBindingsHash.BindingsHash(args.algorithm, args.encoding, args.hash, args.compare);
          var fetchCounter := new FetchCounter(args.network);
          var execution := new QueryExecutorExecution.QueryExecution(read(args.queryFiles[k]), args.queryContext, engine.value, fetchCounter, bindingsHash);
          var _ := execution.Collect(clock(k, 0));
          return written, Err(MetricsMissing);
        }
        written := written + [Written(OutputPath(args, args.queryFiles[k]), entries)];
      }
      r := Ok(());
    }
  }
}
