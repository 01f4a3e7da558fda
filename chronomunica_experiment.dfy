/**
 * chronomunica/experiment.py: an experiment read from a manifest. It runs every query under
 * every config `replication` times (config outermost), enriches each engine result with the
 * URLs the proxy logged during that execution, groups the results by config path and query
 * id, and writes them once, to a file named after the UTC time. A keyboard interrupt during an
 * execution stores the partial list of the query it interrupted and skips everything after it.
 *
 * The engine is given by what it does in each execution (`Executions.Attempt`), numbered from
 * 0 in the order the loops run them; `interruptAt` is the number of the execution, if any,
 * during which the user presses Ctrl-C. The clock is a parameter of `Execute`.
 */
module ChronoExperiment {
  import opened Wrappers
  import opened Dicts
  import opened Seqs
  import opened Executions
  import opened Timestamps
  import QueryFiles
  import ChronoProxy
  import ExperimentFile

  /** What `execute_query` returns: the engine's record, or `{"error": str(ex)}` when the
      engine raised, with `request_urls`, `request_count` and `request_count_unique` set. */
  datatype Enriched<R> = Enriched(outcome: Outcome<R>, requestUrls: seq<string>, requestCount: nat, requestCountUnique: nat)

  /** The three entries `execute_query` adds to a result, from the URLs `reset()` handed over. */
  function Enrich<R>(outcome: Outcome<R>, urls: seq<string>): (e: Enriched<R>)
    ensures e.outcome == outcome && e.requestUrls == urls && e.requestCount == |urls|
    ensures e.requestCountUnique <= e.requestCount
    ensures |urls| > 0 ==> e.requestCountUnique >= 1
  {
    CountDistinctBound(urls);
    Enriched(outcome, urls, |urls|, CountDistinct(urls))
  }

  /** The unique count equals the count exactly when no URL was requested twice. */
  lemma EnrichUnique<R>(outcome: Outcome<R>, urls: seq<string>)
    ensures Enrich(outcome, urls).requestCountUnique == Enrich(outcome, urls).requestCount <==> NoDuplicates(urls)
  {
    if NoDuplicates(urls) {
      CountDistinctOfNoDuplicates(urls);
    } else {
      var i, j :| 0 <= i < j < |urls| && urls[i] == urls[j];
      CountDistinctOfDuplicate(urls, i, j);
    }
  }

  /** The log `reset()` finds when execution k starts: whatever was logged before the
      experiment for the first one, and nothing afterwards, since every execution resets. */
  function Pending(init: seq<string>, k: nat): seq<string> {
    if k == 0 then init else []
  }

  /** The result of execution k. */
  function EntryAt<R>(attempt: nat -> Attempt<R>, init: seq<string>, k: nat): Enriched<R> {
    Enrich(attempt(k).outcome, Pending(init, k) + attempt(k).requested)
  }

  function EntryFn<R>(attempt: nat -> Attempt<R>, init: seq<string>): nat -> Enriched<R> {
    (k: nat) => EntryAt(attempt, init, k)
  }

  /** Each execution's result carries exactly the URLs it requested (after the log held before
      the experiment, for the first), whether the engine returned or raised. */
  lemma EntryUrls<R>(attempt: nat -> Attempt<R>, init: seq<string>, k: nat)
    ensures EntryFn(attempt, init)(k).requestUrls == (if k == 0 then init else []) + attempt(k).requested
    ensures EntryFn(attempt, init)(k).outcome == attempt(k).outcome
  {
  }

  // ---------------------------------------------------------------- the results dictionary

  /** The number of executions that complete: all of them, or those before the interrupted one. */
  function Completed(interruptAt: Option<nat>, total: nat): (m: nat)
    ensures m <= total
    ensures m < total <==> interruptAt.Some? && interruptAt.value < total
    ensures m < total ==> m == interruptAt.value
  {
    if interruptAt.Some? && interruptAt.value < total then interruptAt.value else total
  }

  /** The list of a query whose repetitions start at execution `start` when m executions
      complete: its `replication` results, or those before the interruption. */
  function Stored<E>(entry: nat -> E, start: nat, n: nat, m: nat): (r: seq<E>)
    requires start <= m
    ensures |r| == if m - start < n then m - start else n
    ensures forall j :: 0 <= j < |r| ==> r[j] == entry(start + j)
  {
    var len := if m - start < n then m - start else n;
    seq(len, j requires 0 <= j < len => entry(start + j))
  }

  /** A list holding the results of the executions from `start` on, as many as `Stored`
      keeps, is the stored list. */
  lemma StoredFrom<E>(entry: nat -> E, start: nat, n: nat, m: nat, rs: seq<E>)
    requires start <= m && |rs| == (if m - start < n then m - start else n)
    requires forall j :: 0 <= j < |rs| ==> rs[j] == entry(start + j)
    ensures rs == Stored(entry, start, n, m)
  {
  }

  /** The assignments a loop over `keys` makes when m executions complete, the executions of
      key k starting at start + k · step: a key is assigned once the loop reaches it, that is
      unless an interruption came before its first execution, and `row(s)` is what is
      assigned for a key whose executions start at s. */
  function Rows<V>(keys: seq<string>, start: nat, step: nat, m: nat, row: nat -> V): seq<(string, V)> {
    if |keys| == 0 || m < start then []
    else [(keys[0], row(start))] + Rows(keys[1..], start + step, step, m, row)
  }

  /** `config_results[query_id] = query_results` for a query whose repetitions start at s. */
  function QueryRow<E>(entry: nat -> E, n: nat, m: nat): nat -> seq<E> {
    (s: nat) => if s <= m then Stored(entry, s, n, m) else []
  }

  /** `results[config] = config_results` for a config whose executions start at s. */
  function ConfigRow<E>(qids: seq<string>, n: nat, m: nat, entry: nat -> E): nat -> Dict<string, seq<E>> {
    (s: nat) => PutAll([], Rows(qids, s, n, m, QueryRow(entry, n, m)))
  }

  /** `results` once m executions have completed; each config takes |qids| · n executions. A
      later occurrence of a config path replaces the results of an earlier one. */
  function Results<E>(configs: seq<string>, qids: seq<string>, n: nat, m: nat, entry: nat -> E): Dict<string, Dict<string, seq<E>>> {
    PutAll([], Rows(configs, 0, |qids| * n, m, ConfigRow(qids, n, m, entry)))
  }

  /** When every execution of the loop completed, each key has its row, in key order. */
  lemma {:induction false} RowsAll<V>(keys: seq<string>, start: nat, step: nat, m: nat, row: nat -> V)
    requires start + |keys| * step <= m
    ensures |Rows(keys, start, step, m, row)| == |keys|
    ensures forall k :: 0 <= k < |keys| ==>
      start + k * step + step <= m && Rows(keys, start, step, m, row)[k] == (keys[k], row(start + k * step))
  {
    if |keys| > 0 {
      var rest := keys[1..];
      RowsArith(start, step, m, |keys|, 0);
      RowsAll(rest, start + step, step, m, row);
      var rows := Rows(keys, start, step, m, row);
      assert rows == [(keys[0], row(start))] + Rows(rest, start + step, step, m, row);
      forall k | 0 <= k < |keys|
        ensures start + k * step + step <= m && rows[k] == (keys[k], row(start + k * step))
      {
        RowsArith(start, step, m, |keys|, k);
        if k > 0 {
          assert rows[k] == Rows(rest, start + step, step, m, row)[k - 1];
        }
      }
    }
  }

  /** The arithmetic of `RowsAll`: the key after the first starts one step later. */
  lemma RowsArith(start: nat, step: nat, m: nat, n: nat, k: nat)
    requires 0 < n && start + n * step <= m
    ensures start + step + (n - 1) * step <= m
    ensures 0 < k ==> start + step + (k - 1) * step == start + k * step
    ensures k < n ==> start + k * step + step <= m
  {
    if 0 < k {
      MulSucc(k - 1, step);
    }
    MulSucc(n - 1, step);
    if k < n {
      MulMono(k + 1, n, step);
      MulSucc(k, step);
    }
  }


  /** An interruption during execution s, the i-th of key ks: the keys before it are assigned,
      then key ks, and nothing after. */
  lemma {:induction false} RowsCut<V>(keys: seq<string>, start: nat, step: nat, s: nat, row: nat -> V, ks: nat, at: nat)
    requires ks < |keys| && start + ks * step == at && at <= s < at + step
    ensures Rows(keys, start, step, s, row) == Rows(keys[..ks], start, step, s, row) + [(keys[ks], row(at))]
  {
    if ks == 0 {
      assert Rows(keys[1..], start + step, step, s, row) == [];
    } else {
      MulSucc(ks - 1, step);
      RowsCut(keys[1..], start + step, step, s, row, ks - 1, at);
      assert keys[..ks][1..] == keys[1..][..ks - 1];
    }
  }


  /** With distinct keys, no assignment replaces another: the dictionary is the rows. */
  lemma RowsAsDict<V>(keys: seq<string>, start: nat, step: nat, m: nat, row: nat -> V)
    requires NoDuplicates(keys) && start + |keys| * step <= m
    ensures PutAll([], Rows(keys, start, step, m, row)) == Rows(keys, start, step, m, row)
  {
    var rows := Rows(keys, start, step, m, row);
    RowsAll(keys, start, step, m, row);
    assert forall a :: 0 <= a < |rows| ==> rows[a].0 == keys[a];
    PutAllFresh([], rows);
    assert [] + rows == rows;
  }

  /** One more pass of the loop: key k, whose executions start at `at`, is assigned after
      the keys before it, once the loop reaches it. */
  lemma {:induction false} RowsSnoc<V>(keys: seq<string>, start: nat, step: nat, m: nat, row: nat -> V, k: nat, at: nat)
    requires k < |keys| && start + k * step == at && at <= m
    ensures Rows(keys[..k + 1], start, step, m, row) == Rows(keys[..k], start, step, m, row) + [(keys[k], row(at))]
  {
    if k == 0 {
      assert keys[..1][1..] == [];
    } else {
      MulSucc(k - 1, step);
      RowsSnoc(keys[1..], start + step, step, m, row, k - 1, at);
      assert keys[..k + 1][1..] == keys[1..][..k];
      assert keys[..k][1..] == keys[1..][..k - 1];
    }
  }

  /** The dictionary after the loop has assigned key k, whose executions start at `at`. */
  lemma PutRow<V>(d: Dict<string, V>, keys: seq<string>, start: nat, step: nat, m: nat, row: nat -> V, k: nat, at: nat, v: V)
    requires k < |keys| && start + k * step == at && at <= m
    requires d == PutAll([], Rows(keys[..k], start, step, m, row)) && v == row(at)
    ensures Put(d, keys[k], v) == PutAll([], Rows(keys[..k + 1], start, step, m, row))
  {
    RowsSnoc(keys, start, step, m, row, k, at);
    PutAllSnoc([], Rows(keys[..k], start, step, m, row), (keys[k], v));
  }

  /** Keys whose executions would start after the interruption are never assigned. */
  lemma {:induction false} RowsBeyond<V>(keys: seq<string>, start: nat, step: nat, m: nat, row: nat -> V, k: nat, at: nat)
    requires k <= |keys| && start + k * step == at && m < at
    ensures Rows(keys, start, step, m, row) == Rows(keys[..k], start, step, m, row)
  {
    if k == 0 {
      assert keys[..0] == [];
    } else if start <= m {
      MulSucc(k - 1, step);
      RowsBeyond(keys[1..], start + step, step, m, row, k - 1, at);
      assert keys[..k][1..] == keys[1..][..k - 1];
    }
  }

  /** `queryRow` gives the list stored for a query whose repetitions start at s, once the
      loop reaches it. */
  ghost predicate QueryRowAt<E>(queryRow: nat -> seq<E>, entry: nat -> E, n: nat, m: nat, s: nat) {
    s <= m ==> queryRow(s) == Stored(entry, s, n, m)
  }

  /** `configRow` gives the dictionary stored for a config whose executions start at s. */
  ghost predicate ConfigRowAt<E>(configRow: nat -> Dict<string, seq<E>>, qids: seq<string>, n: nat, m: nat,
                                 queryRow: nat -> seq<E>, s: nat) {
    configRow(s) == PutAll([], Rows(qids, s, n, m, queryRow))
  }

  /** The row functions of `Results`, for proofs that should see them one start at a time. */
  lemma RowFunctions<E>(configs: seq<string>, qids: seq<string>, n: nat, m: nat, entry: nat -> E)
    returns (queryRow: nat -> seq<E>, configRow: nat -> Dict<string, seq<E>>)
    ensures forall s :: QueryRowAt(queryRow, entry, n, m, s)
    ensures forall s :: ConfigRowAt(configRow, qids, n, m, queryRow, s)
    ensures Results(configs, qids, n, m, entry) == PutAll([], Rows(configs, 0, |qids| * n, m, configRow))
  {
    queryRow, configRow := QueryRow(entry, n, m), ConfigRow(qids, n, m, entry);
  }

  /** Repetition j of query qi under config ci is the visit at position
      ci · (|qids| · n) + qi · n + j. */
  predicate VisitedAt(configs: seq<string>, qids: seq<string>, n: nat, ci: nat, qi: nat, j: nat)
    requires ci < |configs| && qi < |qids|
  {
    var k := ci * (|qids| * n) + qi * n + j;
    k < |Nested(configs, qids, n)| && Nested(configs, qids, n)[k] == (configs[ci], qids[qi], j)
  }

  /** The executions of one (config, query) pair are n consecutive visits. */
  lemma RowVisits(configs: seq<string>, qids: seq<string>, n: nat, ci: nat, qi: nat)
    requires ci < |configs| && qi < |qids|
    ensures forall j :: 0 <= j < n ==> VisitedAt(configs, qids, n, ci, qi, j)
  {
    forall j | 0 <= j < n
      ensures VisitedAt(configs, qids, n, ci, qi, j)
    {
      NestedAt(configs, qids, n, ci, qi, j);
    }
  }

  /** Without an interruption (m is the total |configs| · span, where span = |qids| · n is the
      number of executions per config), the rows assigned to `results` are one per config, in
      config order, each a dictionary built from one row per query, in query order, holding
      the `replication` results of that query under that config; the j-th is the result of
      the execution that visited (config, query, j) (`RowVisits`). With distinct config paths
      and query ids, the dictionaries are these rows (`RowsAsDict`). */
  lemma ResultsUninterrupted<E>(configs: seq<string>, qids: seq<string>, n: nat, span: nat, m: nat, entry: nat -> E,
                                ci: nat, qi: nat, base: nat, start: nat)
    requires span == |qids| * n && m == |configs| * span
    requires ci < |configs| && qi < |qids|
    requires base == ci * span && start == base + qi * n
    ensures |Rows(configs, 0, span, m, ConfigRow(qids, n, m, entry))| == |configs|
    ensures Rows(configs, 0, span, m, ConfigRow(qids, n, m, entry))[ci] == (configs[ci], PutAll([], Rows(qids, base, n, m, QueryRow(entry, n, m))))
    ensures |Rows(qids, base, n, m, QueryRow(entry, n, m))| == |qids|
    ensures start + n <= m
    ensures Rows(qids, base, n, m, QueryRow(entry, n, m))[qi] == (qids[qi], Stored(entry, start, n, m))
    ensures |Stored(entry, start, n, m)| == n
  {
    RowsAll(configs, 0, span, m, ConfigRow(qids, n, m, entry));
    RowsAll(qids, base, n, m, QueryRow(entry, n, m));
  }

  /** Repetition i of query qs lies within its config's executions. */
  lemma OffsetBelow(qs: nat, q: nat, n: nat, i: nat)
    requires qs < q && i < n
    ensures 0 <= qs * n && qs * n + i < qs * n + n <= q * n
  {
    MulSucc(qs, n);
    MulMono(qs + 1, q, n);
  }

  /** An interruption during execution s of config cs, whose executions start at `base`:
      the configs before it are assigned, then config cs, and nothing after. */
  lemma ConfigCut<E>(configs: seq<string>, qids: seq<string>, n: nat, entry: nat -> E, s: nat, cs: nat, span: nat, base: nat)
    requires cs < |configs| && span == |qids| * n && base == cs * span && base <= s < base + span
    ensures Results(configs, qids, n, s, entry)
         == PutAll([], Rows(configs[..cs], 0, span, s, ConfigRow(qids, n, s, entry)) + [(configs[cs], ConfigRow(qids, n, s, entry)(base))])
  {
    RowsCut(configs, 0, span, s, ConfigRow(qids, n, s, entry), cs, base);
  }

  /** An interruption during execution s, repetition s - at of query qs whose repetitions
      start at `at`: the config's dictionary holds the queries before it, then the partial
      list of query qs. */
  lemma QueryCut<E>(qids: seq<string>, n: nat, entry: nat -> E, s: nat, qs: nat, base: nat, at: nat)
    requires qs < |qids| && base + qs * n == at <= s < at + n
    ensures ConfigRow(qids, n, s, entry)(base)
         == PutAll([], Rows(qids[..qs], base, n, s, QueryRow(entry, n, s)) + [(qids[qs], Stored(entry, at, n, s))])
  {
    var queryRow := QueryRow(entry, n, s);
    assert queryRow(at) == Stored(entry, at, n, s);
    RowsCut(qids, base, n, s, queryRow, qs, at);
  }

  /** An interruption during execution s, the visit of (configs[cs], qids[qs], i), the
      executions of config cs starting at `base` and those of query qs at `at`: the loops
      stop there; the interrupted query keeps the i results before it, and the config's
      dictionary, holding the queries up to that one, is the last assignment to `results`. */
  lemma ResultsInterrupted<E>(configs: seq<string>, qids: seq<string>, n: nat, entry: nat -> E, s: nat,
                              cs: nat, qs: nat, i: nat, span: nat, base: nat, at: nat)
    requires cs < |configs| && qs < |qids| && i < n
    requires span == |qids| * n && base == cs * span && at == base + qs * n && s == at + i
    ensures VisitedAt(configs, qids, n, cs, qs, i)
    ensures Results(configs, qids, n, s, entry)
         == PutAll([], Rows(configs[..cs], 0, span, s, ConfigRow(qids, n, s, entry))
                       + [(configs[cs], PutAll([], Rows(qids[..qs], base, n, s, QueryRow(entry, n, s))
                                                   + [(qids[qs], Stored(entry, at, n, s))]))])
    ensures |Stored(entry, at, n, s)| == i
  {
    assert VisitedAt(configs, qids, n, cs, qs, i) by {
      NestedAt(configs, qids, n, cs, qs, i);
    }
    var configRow := ConfigRow(qids, n, s, entry);
    var queryRows := Rows(qids[..qs], base, n, s, QueryRow(entry, n, s)) + [(qids[qs], Stored(entry, at, n, s))];
    assert configRow(base) == PutAll([], queryRows) by {
      OffsetBelow(qs, |qids|, n, i);
      QueryCut(qids, n, entry, s, qs, base, at);
    }
    assert Results(configs, qids, n, s, entry) == PutAll([], Rows(configs[..cs], 0, span, s, configRow) + [(configs[cs], configRow(base))]) by {
      OffsetBelow(qs, |qids|, n, i);
      ConfigCut(configs, qids, n, entry, s, cs, span, base);
    }
  }

  /** Every execution number below the total is the visit of exactly one (config, query,
      repetition) position. */
  lemma Decompose(s: nat, c: nat, q: nat, n: nat) returns (cs: nat, qs: nat, i: nat)
    requires s < c * (q * n)
    ensures cs < c && qs < q && i < n
    ensures s == cs * (q * n) + qs * n + i
  {
    var l := q * n;
    assert l > 0;
    cs := s / l;
    var r := s % l;
    assert s == cs * l + r;
    qs := r / n;
    i := r % n;
    assert r == qs * n + i;
    if cs >= c {
      MulMono(c, cs, l);
    }
    if qs >= q {
      MulMono(q, qs, n);
    }
  }

  // ---------------------------------------------------------------- the experiment

  type Trace = seq<Step<(string, string, nat)>>

  class Experiment<R> {
    const proxy: ChronoProxy.ProxyServer
    /** What the engine does in each execution, numbered from 0 in loop order. */
    const attempt: nat -> Attempt<R>
    /** The execution, if any, during which the user presses Ctrl-C. */
    const interruptAt: Option<nat>
    const resultPath: string
    const replication: int
    /** The config paths, as `as_posix()` writes them. */
    const configs: seq<string>
    const queries: Dict<string, string>

    /** `__init__`: the settings of the manifest, and the queries of its query files (each a
        (file URI, text) pair) loaded by `load_queries`. */
    constructor(proxy: ChronoProxy.ProxyServer, attempt: nat -> Attempt<R>, interruptAt: Option<nat>,
                resultPath: string, replication: int, configs: seq<string>, queryFiles: seq<(string, string)>)
      ensures this.proxy == proxy && this.attempt == attempt && this.interruptAt == interruptAt
      ensures this.resultPath == resultPath && this.replication == replication && this.configs == configs
      ensures this.queries == QueryFiles.QueryDict(QueryFiles.StrippedQueries, queryFiles)
    {
      this.proxy := proxy;
      this.attempt := attempt;
      this.interruptAt := interruptAt;
      this.resultPath := resultPath;
      this.replication := replication;
      this.configs := configs;
      var loaded := QueryFiles.LoadQueries(queryFiles);
      this.queries := loaded;
    }

    function Qids(): seq<string> {
      Keys(queries)
    }

    /** The repetitions of each query. */
    function N(): nat {
      Repetitions(replication)
    }

    /** The (config, query id, repetition) visited by each execution, in loop order. */
    function Visits(): seq<(string, string, nat)> {
      Nested(configs, Qids(), N())
    }

    /** The executions of one config. */
    function Span(): nat {
      |Qids()| * N()
    }

    /** The executions that complete. */
    function Done(): nat {
      Completed(interruptAt, |Visits()|)
    }

    /** The proxy's log after `done` executions: what `reset()` will find next, or, when
        execution `done` was interrupted (skip), the log that execution left. */
    ghost predicate Logged(init: seq<string>, done: nat, skip: bool)
      reads proxy
    {
      if skip then proxy.urls == Pending(init, done) + attempt(done).requested else proxy.urls == Pending(init, done)
    }

    /** `execute_query` for execution k. While the engine runs, the proxy logs what it
        requests. When it returns or raises an `Exception`, `reset()` hands the log to the
        result; a keyboard interrupt is not an `Exception` and leaves `execute_query` at once
        (None), with the log kept. */
    method ExecuteQuery(k: nat) returns (e: Option<Enriched<R>>)
      modifies proxy
      ensures interruptAt == Some(k) ==> e == None && proxy.urls == old(proxy.urls) + attempt(k).requested
      ensures interruptAt != Some(k) ==>
        e == Some(Enrich(attempt(k).outcome, old(proxy.urls) + attempt(k).requested)) && proxy.urls == []
    {
      proxy.urls := proxy.urls + attempt(k).requested;
      if interruptAt == Some(k) {
        return None;
      }
      var urls := proxy.Reset();
      e := Some(Enrich(attempt(k).outcome, urls));
    }

    /** `execute`: the proxy starts; every query runs under every config `replication` times
        (config outermost), each result stored under its config path and query id; an
        interruption keeps the partial list of its query and skips the rest; the results are
        written once, to `<result_path>/<UTC time>.json`, and the proxy stops. */
    method Execute(now: DateTime) returns (trace: Trace, results: Dict<string, Dict<string, seq<Enriched<R>>>>, file: string)
      requires Timestamps.Valid(now)
      modifies proxy
      ensures trace == [ProxyStart] + Runs(Visits()[..if Done() < |Visits()| then Done() + 1 else Done()]) + [Serialized, ProxyStop]
      ensures results == Results(configs, Qids(), N(), Done(), EntryFn(attempt, old(proxy.urls)))
      ensures file == ExperimentFile.JoinPath(resultPath, FormatDigits(now) + ".json")
      ensures Done() < |Visits()| ==> proxy.urls == Pending(old(proxy.urls), Done()) + attempt(Done()).requested
      ensures Done() == |Visits()| ==> proxy.urls == Pending(old(proxy.urls), Done())
    {
      ghost var init := proxy.urls;
      ghost var queryRow, configRow := RowFunctions(configs, Qids(), N(), Done(), EntryFn(attempt, init));
      var visited, done, skip;
      results, visited, done, skip := ExecuteConfigs(queryRow, configRow, init);
      var time := FormatDigits(now);
      file := ExperimentFile.JoinPath(resultPath, time + ".json");
      trace := [ProxyStart] + Runs(visited) + [Serialized, ProxyStop];
    }

    /** Where the outer loop stands after the configs before ci (whose executions are the
        first `next`): the log, what it visited, and the results so far. */
    ghost predicate ConfigsAt(configRow: nat -> Dict<string, seq<Enriched<R>>>, init: seq<string>, ci: nat, next: nat,
                              results: Dict<string, Dict<string, seq<Enriched<R>>>>, visited: seq<(string, string, nat)>, done: nat, skip: bool)
      reads proxy
    {
      && ci <= |configs| && next == |Nested(configs[..ci], Qids(), N())| <= |Visits()|
      && Logged(init, done, skip) && (!skip ==> done == next <= Done()) && (skip ==> done == Done() < next)
      && |visited| <= |Visits()| && visited == Visits()[..|visited|] && |visited| == (if skip then Done() + 1 else next)
      && results == PutAll([], Rows(configs[..ci], 0, Span(), Done(), configRow))
    }

    /** The outer loop: every config in turn, until an interruption; `visited` is what it
        visited. */
    method ExecuteConfigs(ghost queryRow: nat -> seq<Enriched<R>>, ghost configRow: nat -> Dict<string, seq<Enriched<R>>>, ghost init: seq<string>)
      returns (results: Dict<string, Dict<string, seq<Enriched<R>>>>, visited: seq<(string, string, nat)>, done: nat, skip: bool)
      requires Logged(init, 0, false)
      requires forall s :: QueryRowAt(queryRow, EntryFn(attempt, init), N(), Done(), s)
      requires forall s :: ConfigRowAt(configRow, Qids(), N(), Done(), queryRow, s)
      modifies proxy
      ensures results == PutAll([], Rows(configs, 0, Span(), Done(), configRow))
      ensures skip <==> Done() < |Visits()|
      ensures done == Done() && Logged(init, done, skip)
      ensures visited == Visits()[..if skip then done + 1 else done]
    {
      results, visited, done, skip := [], [], 0, false;
      var ci := 0;
      ghost var next: nat := 0;
      while ci < |configs| && !skip
        invariant ConfigsAt(configRow, init, ci, next, results, visited, done, skip)
      {
        results, visited, done, skip := ConfigPass(queryRow, configRow, init, ci, next, results, visited, done);
        next := next + |Block(configs[ci], Qids(), N())|;
        ci := ci + 1;
      }
      if skip {
        assert results == PutAll([], Rows(configs, 0, Span(), Done(), configRow)) by {
          NestedLength(configs[..ci], Qids(), N());
          RowsBeyond(configs, 0, Span(), Done(), configRow, ci, next);
        }
      } else {
        assert configs[..ci] == configs;
      }
    }

    /** One pass of the outer loop: config ci runs every query and its results are stored. */
    method ConfigPass(ghost queryRow: nat -> seq<Enriched<R>>, ghost configRow: nat -> Dict<string, seq<Enriched<R>>>, ghost init: seq<string>,
                      ci: nat, ghost next: nat, results0: Dict<string, Dict<string, seq<Enriched<R>>>>, visited0: seq<(string, string, nat)>, done0: nat)
      returns (results: Dict<string, Dict<string, seq<Enriched<R>>>>, visited: seq<(string, string, nat)>, done: nat, skip: bool)
      requires ci < |configs| && ConfigsAt(configRow, init, ci, next, results0, visited0, done0, false)
      requires forall s :: QueryRowAt(queryRow, EntryFn(attempt, init), N(), Done(), s)
      requires forall s :: ConfigRowAt(configRow, Qids(), N(), Done(), queryRow, s)
      modifies proxy
      ensures ConfigsAt(configRow, init, ci + 1, next + |Block(configs[ci], Qids(), N())|, results, visited, done, skip)
    {
      ghost var vs := Visits();
      ghost var m := Done();
      ghost var block := Block(configs[ci], Qids(), N());
      NestedExtend(configs, Qids(), N(), ci, next, 0);
      var configResults, ran;
      configResults, done, skip, ran := ExecuteConfig(queryRow, m, |vs|, init, configs[ci], done0, next + |block|);
      assert ConfigRowAt(configRow, Qids(), N(), m, queryRow, next);
      assert Put(results0, configs[ci], configResults) == PutAll([], Rows(configs[..ci + 1], 0, Span(), m, configRow)) by {
        NestedLength(configs[..ci], Qids(), N());
        BlockLength(configs[ci], Qids(), N());
        PutRow(results0, configs, 0, Span(), m, configRow, ci, next, configResults);
      }
      NestedExtend(configs, Qids(), N(), ci, next, |ran|);
      NestedTake(configs, Qids(), N(), ci);
      results := Put(results0, configs[ci], configResults);
      visited := visited0 + ran;
    }

    /** Where the middle loop for `config` stands after the queries before qi (its executions
        from `start` to `next`): the log, what it visited, and the results so far. */
    ghost predicate QueriesAt(queryRow: nat -> seq<Enriched<R>>, m: nat, init: seq<string>, config: string, start: nat, end: nat,
                              qi: nat, next: nat, configResults: Dict<string, seq<Enriched<R>>>, ran: seq<(string, string, nat)>, done: nat, skip: bool)
      reads proxy
    {
      && qi <= |Qids()| && next == start + |Block(config, Qids()[..qi], N())| <= end
      && Logged(init, done, skip) && (!skip ==> done == next <= m) && (skip ==> done == m < next)
      && |ran| <= |Block(config, Qids(), N())| && ran == Block(config, Qids(), N())[..|ran|]
      && start + |ran| == (if skip then m + 1 else next)
      && configResults == PutAll([], Rows(Qids()[..qi], start, N(), m, queryRow))
    }

    /** The middle loop: every query under one config, whose executions are those from
        `start` to `end`; `ran` is what it visited. */
    method ExecuteConfig(ghost queryRow: nat -> seq<Enriched<R>>, ghost m: nat, ghost total: nat, ghost init: seq<string>,
                         config: string, start: nat, ghost end: nat)
      returns (configResults: Dict<string, seq<Enriched<R>>>, done: nat, skip: bool, ran: seq<(string, string, nat)>)
      requires m == Completed(interruptAt, total) && start <= m
      requires end == start + |Block(config, Qids(), N())| <= total
      requires Logged(init, start, false)
      requires forall s :: QueryRowAt(queryRow, EntryFn(attempt, init), N(), m, s)
      modifies proxy
      ensures configResults == PutAll([], Rows(Qids(), start, N(), m, queryRow))
      ensures skip <==> m < end
      ensures done == if skip then m else end
      ensures Logged(init, done, skip)
      ensures |ran| <= |Block(config, Qids(), N())| && ran == Block(config, Qids(), N())[..|ran|]
      ensures start + |ran| == if skip then m + 1 else end
    {
      var qids := Qids();
      configResults, done, skip, ran := [], start, false, [];
      var qi := 0;
      ghost var next: nat := start;
      while qi < |qids| && !skip
        invariant QueriesAt(queryRow, m, init, config, start, end, qi, next, configResults, ran, done, skip)
      {
        configResults, done, skip, ran := QueryPass(queryRow, m, total, init, config, start, end, qi, next, configResults, ran, done);
        next := next + N();
        qi := qi + 1;
      }
      if skip {
        assert configResults == PutAll([], Rows(qids, start, N(), m, queryRow)) by {
          BlockLength(config, qids[..qi], N());
          RowsBeyond(qids, start, N(), m, queryRow, qi, next);
        }
      } else {
        assert qids[..qi] == qids;
      }
    }

    /** One pass of the middle loop: query qi runs its repetitions and its list is stored. */
    method QueryPass(ghost queryRow: nat -> seq<Enriched<R>>, ghost m: nat, ghost total: nat, ghost init: seq<string>,
                     config: string, start: nat, ghost end: nat, qi: nat, ghost next: nat,
                     configResults0: Dict<string, seq<Enriched<R>>>, ran0: seq<(string, string, nat)>, done0: nat)
      returns (configResults: Dict<string, seq<Enriched<R>>>, done: nat, skip: bool, ran: seq<(string, string, nat)>)
      requires m == Completed(interruptAt, total) && end == start + |Block(config, Qids(), N())| <= total
      requires qi < |Qids()| && QueriesAt(queryRow, m, init, config, start, end, qi, next, configResults0, ran0, done0, false)
      requires forall s :: QueryRowAt(queryRow, EntryFn(attempt, init), N(), m, s)
      modifies proxy
      ensures QueriesAt(queryRow, m, init, config, start, end, qi + 1, next + N(), configResults, ran, done, skip)
    {
      var qids := Qids();
      BlockExtend(config, qids, N(), qi, next - start, 0);
      var queryResults, reps;
      assert QueryRowAt(queryRow, EntryFn(attempt, init), N(), m, done0);
      queryResults, done, skip, reps := ExecuteRepetitions(queryRow, m, total, init, config, qids[qi], done0);
      assert Put(configResults0, qids[qi], queryResults) == PutAll([], Rows(qids[..qi + 1], start, N(), m, queryRow)) by {
        BlockLength(config, qids[..qi], N());
        PutRow(configResults0, qids, start, N(), m, queryRow, qi, next, queryResults);
      }
      BlockExtend(config, qids, N(), qi, next - start, |reps|);
      BlockTake(config, qids, N(), qi);
      configResults := Put(configResults0, qids[qi], queryResults);
      ran := ran0 + reps;
    }

    /** The inner loop: the repetitions of one query under one config, the first being
        execution `start`; `ran` is what it visited. */
    method ExecuteRepetitions(ghost queryRow: nat -> seq<Enriched<R>>, ghost m: nat, ghost total: nat, ghost init: seq<string>,
                              config: string, qid: string, start: nat)
      returns (queryResults: seq<Enriched<R>>, done: nat, skip: bool, ran: seq<(string, string, nat)>)
      requires m == Completed(interruptAt, total) && start <= m && start + N() <= total
      requires Logged(init, start, false)
      requires QueryRowAt(queryRow, EntryFn(attempt, init), N(), m, start)
      modifies proxy
      ensures queryResults == queryRow(start)
      ensures skip <==> m < start + N()
      ensures done == if skip then m else start + N()
      ensures Logged(init, done, skip)
      ensures |ran| <= N() && ran == Reps(config, qid, N())[..|ran|]
      ensures start + |ran| == if skip then m + 1 else start + N()
    {
      ghost var entry := EntryFn(attempt, init);
      ghost var reps := Reps(config, qid, N());
      queryResults, done, skip, ran := [], start, false, [];
      var i := 0;
      while i < N()
        invariant i <= N() && done == start + i <= m && !skip && Logged(init, done, false)
        invariant ran == reps[..i]
        invariant |queryResults| == i && forall j :: 0 <= j < i ==> queryResults[j] == entry(start + j)
      {
        assert reps[..i + 1] == reps[..i] + [(config, qid, i)];
        ran := ran + [(config, qid, i)];
        var result := ExecuteQuery(done);
        if result.None? {
          skip := true;
          break;
        }
        queryResults := queryResults + [result.value];
        done := done + 1;
        i := i + 1;
      }
      StoredFrom(entry, start, N(), m, queryResults);
    }
  }
}
