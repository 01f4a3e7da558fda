/**
 * packages/executor/lib/QueryExecutionManager.ts: runs every query file once, in order, each
 * with a new engine, a new bindings hash and a new fetch counter, and logs the file with its
 * metrics. A failed `collect` is caught and its error goes into the metrics; a failed engine
 * creation rejects `execute`.
 *
 * Reading a file, creating the engine for the k-th file and the clock reading before its
 * `queryBindings` are parameters; the logged lines are returned.
 */
module ExecutorManager {
  import opened Wrappers
  import opened Seqs
  import opened Fetching
  import opened BindingsStreams
  import opened ExecutorQueryExecution
  import PackageBindingsHash
  import Sorting

  type Reader = string -> string

  /** `IQueryExecutionManagerArgs`, with each factory given by what it builds from: the
      hash factory by its algorithm, encoding, hash and `localeCompare`, the fetch counter
      factory by the global fetch. The context is `{}` when none is given. */
  datatype Args = Args(algorithm: string, encoding: string, hash: PackageBindingsHash.PushedDigest, compare: Sorting.Comparator,
                       network: FetchFunction, queryContext: Context, queryFiles: seq<string>)

  /** The lines `execute` logs, and the error it rejects with, if any. */
  datatype Log = Log(lines: seq<(string, Output)>, failure: Option<string>)

  /** The metrics of a file when its engine is `engine` and the clock reads `start` before
      the query: a fresh hash and counter see only this run. */
  function Expected(args: Args, file: string, engine: Engine, read: Reader, start: int): Output {
    FreshMetrics(engine(read(file), CountingContext(args.queryContext)), start, args.algorithm, args.encoding, args.hash, args.compare)
  }

  /** The metrics of the k-th file, as `execute` measures them. */
  function Measure(args: Args, read: Reader, clock: nat -> int): (nat, string, Engine) -> Output {
    (k: nat, file: string, engine: Engine) => Expected(args, file, engine, read, clock(k))
  }

  /** The lines logged for the first n files, with `measure` giving the metrics of the k-th
      file, and the error `execute` has rejected with, if any. */
  function Logged(files: seq<string>, n: nat, create: nat -> Outcome<Engine>, measure: (nat, string, Engine) -> Output): (r: Log)
    requires n <= |files|
    ensures |r.lines| <= n
  {
    if n == 0 then Log([], None)
    else
      var prev := Logged(files, n - 1, create, measure);
      if prev.failure.Some? then prev
      else match create(n - 1)
        case Err(e) => Log(prev.lines, Some(e))
        case Ok(engine) => Log(prev.lines + [(files[n - 1], measure(n - 1, files[n - 1], engine))], None)
  }

  /** Lines are logged in file order until an engine creation fails; that failure is what
      `execute` rejects with. */
  lemma {:induction false} LoggedShape(files: seq<string>, n: nat, create: nat -> Outcome<Engine>, measure: (nat, string, Engine) -> Output)
    requires n <= |files|
    ensures var log := Logged(files, n, create, measure);
      (log.failure.None? <==> |log.lines| == n)
      && (log.failure.Some? ==> create(|log.lines|) == Err(log.failure.value))
  {
    if n > 0 {
      LoggedShape(files, n - 1, create, measure);
    }
  }

  /** The k-th line logged is the k-th file with its own metrics. */
  lemma {:induction false} LoggedLine(files: seq<string>, n: nat, k: nat, create: nat -> Outcome<Engine>, measure: (nat, string, Engine) -> Output)
    requires n <= |files| && k < |Logged(files, n, create, measure).lines|
    ensures create(k).Ok?
    ensures Logged(files, n, create, measure).lines[k] == (files[k], measure(k, files[k], create(k).value))
  {
    var prev := Logged(files, n - 1, create, measure);
    if k < |prev.lines| {
      LoggedLine(files, n - 1, k, create, measure);
    } else {
      LoggedShape(files, n - 1, create, measure);
    }
  }

  /** One more file: its line when its engine is created, otherwise the rejection, which
      stays. */
  lemma LoggedNext(files: seq<string>, k: nat, create: nat -> Outcome<Engine>, measure: (nat, string, Engine) -> Output)
    requires k < |files| && Logged(files, k, create, measure).failure.None?
    ensures create(k).Ok? ==>
              Logged(files, k + 1, create, measure) == Log(Logged(files, k, create, measure).lines + [(files[k], measure(k, files[k], create(k).value))], None)
    ensures create(k).Err? ==>
              Logged(files, |files|, create, measure) == Log(Logged(files, k, create, measure).lines, Some(create(k).error))
  {
    if create(k).Err? {
      RejectionSticks(files, k + 1, |files|, create, measure);
    }
  }

  /** Once `execute` has rejected, later files change nothing. */
  lemma {:induction false} RejectionSticks(files: seq<string>, m: nat, n: nat, create: nat -> Outcome<Engine>, measure: (nat, string, Engine) -> Output)
    requires m <= n <= |files|
    requires Logged(files, m, create, measure).failure.Some?
    ensures Logged(files, n, create, measure) == Logged(files, m, create, measure)
    decreases n - m
  {
    if m < n {
      RejectionSticks(files, m, n - 1, create, measure);
    }
  }

  class QueryExecutionManager {
    const args: Args

    constructor(args: Args)
      ensures this.args == args
    {
      this.args := args;
    }

    /** `execute`: the logged lines, and the rejection if an engine creation fails. */
    method Execute(read: Reader, create: nat -> Outcome<Engine>, clock: nat -> int) returns (logs: seq<(string, Output)>, r: Outcome<()>)
      ensures Log(logs, if r.Err? then Some(r.error) else None) == Logged(args.queryFiles, |args.queryFiles|, create, Measure(args, read, clock))
    {
      ghost var measure := Measure(args, read, clock);
      logs := [];
      for k := 0 to |args.queryFiles|
        invariant Logged(args.queryFiles, k, create, measure) == Log(logs, None)
      {
        var engine := create(k);
        LoggedNext(args.queryFiles, k, create, measure);
        if engine.Err? {
          r := Err(engine.error);
          return;
        }
        var output := ExecuteFile(k, args.queryFiles[k], engine.value, read, clock);
        logs := logs + [(args.queryFiles[k], output)];
      }
      r := Ok(());
    }

    /** The body of the loop for one file, once its engine exists. */
    method ExecuteFile(k: nat, file: string, engine: Engine, read: Reader, clock: nat -> int) returns (output: Output)
      ensures output == Measure(args, read, clock)(k, file, engine)
    {
      var start := clock(k);
      var bindingsHash := new PackageBindingsHash.BindingsHash(args.algorithm, args.encoding, args.hash, args.compare);
      var fetchCounter := new FetchCounter(args.network);
      var execution := new QueryExecution(read(file), args.queryContext, engine, fetchCounter, bindingsHash);
      ghost var answer := engine(read(file), CountingContext(args.queryContext));
      assert execution.Answer() == answer;
      var result := execution.Collect(start);
      assert bindingsHash.bindings == Bindings(Data(answer));
      var executionError := if result.Err? then Some(result.error) else None;
      assert executionError == ErrorOf(answer);
      output := execution.Metrics(executionError);
    }
  }
}
