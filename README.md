# chronomunica, modelled in Dafny

chronomunica is a benchmark harness for SPARQL query engines (Comunica and others). It
loads query files, runs every query under every engine configuration a number of times,
and records what happened in each run:
- when each result arrived;
- a hash of the results in canonical form;
- how many HTTP requests the engine sent, through a counting `fetch` or a logging HTTP proxy;
- whether the run failed or timed out.

Post-processing scripts then check that repeated runs agree and compute diefficiency
curves. The harness exists in several generations:
- Python orchestrators (runner/, chronomunica/, experiment/, tool/, processing/);
- TypeScript runners and executors (runner/*.ts, src/, lib/, packages/).

This project models the core of each generation in Dafny, one module per source file,
plus shared modules:
- `Wrappers`: results that carry an error;
- `Strings`, `Sorting` and `Dicts`: Python and JavaScript string operations, sorting, and
  insertion-ordered dictionaries;
- `NodePaths`: Node's `path`;
- `Timestamps`: `datetime` formatting;
- `QueryFiles`: splitting query files;
- `Executions`: nested loop order and the proxy's URL log;
- `Rdf`, `Fetching` and `BindingsStreams`: what an engine and the network do, as values.

Code that changes state step by step becomes classes and methods with loops. Each such
method is proved against a function of its inputs. Pure code becomes functions and lemmas.
Processes, HTTP, the clock, JSON, hashing and the engine itself are parameters, given by
what they do.

## Model

| member | source | states |
|---|---|---|
| RunnerQueryEngine.NormaliseStripped | runner/queryengine.py:65 | the normalised line has no surrounding whitespace and is never longer than the line read |
| RunnerQueryEngine.NormaliseClean | runner/queryengine.py:65 | a line with no surrounding whitespace, no trailing "," and no leading "[" is left unchanged |
| RunnerQueryEngine.ResultMatch | runner/queryengine.py:13 | a match of `(?P<result>{.*})` anchored at the start of the line is a prefix of the line that begins with "{" and ends with "}" |
| RunnerQueryEngine.ResultMatchToLastBrace | runner/queryengine.py:13 | on a line with no line break, the greedy match runs to the last "}" of the line |
| RunnerQueryEngine.Classify | runner/queryengine.py:72-78 | a non-blank normalised line hands one or two non-empty texts to `add_result` |
| RunnerQueryEngine.LineAdds | runner/queryengine.py:65-78 | a line hands nothing to `add_result` exactly when it normalises to the empty text, and otherwise at most two non-empty texts |
| RunnerQueryEngine.ReplaceRemovesMatchOnly | runner/queryengine.py:76 | `replace(match, "")` removes only the matched prefix when no later "}" follows it |
| RunnerQueryEngine.ClassifySplit | runner/queryengine.py:72-78 | on a matching line, the texts are the match and then the stripped rest of the line, the rest only when it is non-empty |
| RunnerQueryEngine.MatchRestDecomposes | runner/queryengine.py:72-76 | a matching line is the match, then whitespace, then the stripped rest |
| RunnerQueryEngine.FirstStop | runner/queryengine.py:63-71 | the index of the first line whose normalised text ends with "]"; no earlier line stops the loop |
| RunnerQueryEngine.FirstStopAppend | runner/queryengine.py:69-71 | lines read after a stopping line do not move the first stop |
| RunnerQueryEngine.NothingAfterStop | runner/queryengine.py:69-71 | nothing read after the stopping line is ever recorded |
| RunnerQueryEngine.AddsOfStep | runner/queryengine.py:63-78 | reading one more line appends exactly that line's texts under its elapsed key, and a blank line appends nothing |
| RunnerQueryEngine.Keyed | runner/queryengine.py:75-78 | every text of a line is recorded under that line's elapsed key, in order |
| RunnerQueryEngine.ChildEnvOverrides | runner/queryengine.py:51 | the child sees the config path under `COMUNICA_CONFIG` and every other variable as configured |
| RunnerQueryEngine.ContextText | runner/queryengine.py:29 | a serialised context is kept exactly when a non-empty context was configured |
| RunnerQueryEngine.Arguments | runner/queryengine.py:36-45 | the command line is node, bin, `--query` and the query, followed by `--context` and the context exactly when the stored context is non-empty |
| RunnerQueryEngine.RecordLine | runner/queryengine.py:72-78 | one non-blank line updates the record's results and diagnostics exactly as `add_result` would for its texts, and nothing else of the record |
| RunnerQueryEngine.ReadOutput | runner/queryengine.py:61-79 | the read loop records exactly the texts of the lines before the first stopping line, with their elapsed keys, and nothing else |
| RunnerQueryEngine.QueryEngine.constructor | runner/queryengine.py:17-29 | the engine keeps its paths and environment, and the serialised context only when one is configured |
| RunnerQueryEngine.QueryEngine.QueryBindings | runner/queryengine.py:31-93 | `query_bindings` returns a fresh record for the config and query, with the recorded lines, both clock readings, the timeout flag and stderr; it also gives the command line and the child's environment |
| ChronoQueryEngine.StoreLineEffect | chronomunica/queryengine.py:60-64 | a line that looks like a JSON object is parsed into the bindings under its key, and a failed parse aborts; any other line goes to the unknown output |
| ChronoQueryEngine.ScanLinesSnoc | chronomunica/queryengine.py:51-64 | one more line extends the scan: blank lines are skipped and a parse failure sticks |
| ChronoQueryEngine.ParseFailureSticks | chronomunica/queryengine.py:61 | once a line fails to parse, later lines change nothing |
| ChronoQueryEngine.ScanKeys | chronomunica/queryengine.py:51-64 | both dictionaries are keyed only by elapsed times of lines read |
| ChronoQueryEngine.CollectedIgnoresAfterStop | chronomunica/queryengine.py:57-59 | lines after the first line ending with "]" are never read |
| ChronoQueryEngine.CollectedAfterFailure | chronomunica/queryengine.py:61 | the outcome of the read loop is the first parse failure before the stopping line |
| ChronoQueryEngine.ScannedPrefixFailure | chronomunica/queryengine.py:61 | a parse failure in a prefix is the failure of every longer prefix |
| ChronoQueryEngine.Record | chronomunica/queryengine.py:77-93 | the returned dictionary holds the bindings and unknown output read, and counts the results; the unique count never exceeds the count |
| ChronoQueryEngine.RecordOrderFree | chronomunica/queryengine.py:77-88 | the hash and the unique count depend only on the multiset of bindings, not on their keys or order |
| ChronoQueryEngine.ReadStdout | chronomunica/queryengine.py:51-64 | the read loop leaves exactly the scan of the lines before the first stop |
| ChronoQueryEngine.QueryEngine.constructor | chronomunica/queryengine.py:19-21 | the context is serialised exactly when the config has one |
| ChronoQueryEngine.QueryEngine.Query | chronomunica/queryengine.py:23-93 | `query` raises on a line that does not parse, raises a timeout exactly when the scan succeeds and the exit status is truthy, and otherwise returns the record; it also gives the command line and an environment holding only `COMUNICA_CONFIG` |
| RunnerQueryEngine.ReadLine | runner/queryengine.py:63-78 | one line read: a stopping line ends the loop and records nothing; any other line records its texts, so the record is that of the lines read so far |
| ExperimentResult.AddStepEffect | experiment/result.py:31-40 | a text that parses replaces the binding under its key and leaves the diagnostics alone; one that does not parse is appended to the diagnostic text under that key, or stored when the key is new, leaving the bindings alone |
| ExperimentResult.AddAllAppend | experiment/result.py:31-40 | recording two batches of texts is recording the first batch, then the second |
| ExperimentResult.AddAllPair | experiment/result.py:31-40 | two diagnostics under one key are concatenated in the order they arrive |
| ExperimentResult.AddAllKeys | experiment/result.py:31-40 | both dictionaries stay duplicate-free and are keyed only by the elapsed keys recorded |
| ExperimentResult.CanonicalStrings | experiment/result.py:45-50 | one canonical string per stored value |
| ExperimentResult.CanonicalStringsPermutation | experiment/result.py:45-50 | the canonical strings, and so the hash input, depend only on the multiset of values |
| ExperimentResult.HashInputIsCanonical | experiment/result.py:61-65 | sorting the already sorted canonical strings again changes nothing |
| ExperimentResult.CountUnique | experiment/result.py:55-56 | the unique result count is at most the result count, and at least 1 when there are results |
| ExperimentResult.UrlCountUnique | experiment/result.py:58-59 | the unique URL count is at most the URL count, and at least 1 when URLs were requested |
| ExperimentResult.PyHash | experiment/result.py:70-71 | `hash()` succeeds exactly when `__hash__` returns an int |
| ExperimentResult.EqualsAsWrittenRaises | experiment/result.py:67-71 | comparing two results as written always raises, because `__hash__` returns bytes |
| ExperimentResult.EqualsOrderFree | experiment/result.py:67-71 | with the comparison by result hash, results holding the same values in any order are equal |
| ExperimentResult.KeysAsText | experiment/result.py:107-114 | writing the manifest turns each dictionary key into text and keeps the values in order |
| ExperimentResult.KeysAsTextValid | experiment/result.py:107-114 | distinct elapsed keys stay distinct once written as decimal text, and the values are kept |
| ExperimentResult.ToManifest | experiment/result.py:73-90 | `as_dict` counts the results and URLs, its unique counts are at most the counts, and its hash is the digest of the canonical strings |
| ExperimentResult.FromManifest | experiment/result.py:93-104 | a loaded record has a start time with no fraction of a second |
| ExperimentResult.SavedManifest | experiment/result.py:107-114 | the saved manifest is `as_dict` with both dictionaries put in ascending numeric key order before the keys become text; counts and hash are unchanged by that order |
| ExperimentResult.GetKeysAsText | experiment/result.py:107-114 | a dictionary written with decimal keys answers for the decimal text of a key what it answered for the key |
| ExperimentResult.LoadAfterSave | experiment/result.py:73-114 | loading a saved result gives back config, query, timeout, URLs and stderr, both dictionaries in ascending key order under decimal keys with the same value for every key, and both times truncated to the second |
| ExperimentResult.ResultFileNameCollision | experiment/result.py:107-110 | two results are saved to the same file exactly when they began in the same second |
| ExperimentResult.Result.constructor | experiment/result.py:16-23 | a new result holds its config and query, empty results, diagnostics and URLs, no stderr, and no timeout |
| ExperimentResult.Result.Begin | experiment/result.py:25-26 | `begin` sets the start time and nothing else |
| ExperimentResult.Result.End | experiment/result.py:28-29 | `end` sets the end time and nothing else |
| ExperimentResult.Result.AddResult | experiment/result.py:31-40 | `add_result` changes only the results and diagnostics, as the recording step says |
| ExperimentResult.LoadResult | experiment/result.py:93-104 | `load_result` fails exactly when a time does not parse, and otherwise builds a fresh record from the manifest |
| RunnerProxy.ForwardHeadersGet | runner/proxyserver.py:38-40 | the forwarded headers drop every `Host` header, in any case, and keep the last value of every other header |
| RunnerProxy.KeptHeadersMembers | runner/proxyserver.py:11-18 | a response header is relayed exactly when its lower-cased name is not one of the four ignored headers |
| RunnerProxy.RewriteReplacesEveryOccurrence | runner/proxyserver.py:53-55 | a header value has every occurrence of the upstream base replaced by the listen base, and a value without it is unchanged |
| RunnerProxy.RelayHeadersSpec | runner/proxyserver.py:49-56 | the relayed headers are the kept headers in order, each value rewritten, and none of them is an ignored header |
| RunnerProxy.RelayBodySpec | runner/proxyserver.py:66-72 | the relayed body has every occurrence of the upstream base replaced, and a body without it is unchanged |
| RunnerProxy.ReplyFor | runner/proxyserver.py:46-82 | a failed forward gets an error page; a response keeps its status and rewritten headers, and is relayed exactly when its body decodes, otherwise the headers are followed by a 500 error page |
| RunnerProxy.BodyUnchanged | runner/proxyserver.py:66-72 | a body that decodes, encodes back to itself and holds no upstream base reaches the client byte for byte |
| RunnerProxy.ErrorStatusCases | runner/proxyserver.py:73-82 | an HTTP error keeps its own status, a reset connection gives 502, and every other failure gives 500 |
| RunnerProxy.Base | runner/proxyserver.py:28-29 | a base URL is never empty |
| RunnerProxy.ProxyServer.constructor | runner/proxyserver.py:22-29 | a new proxy has an empty log and the two bases built from host and port |
| RunnerProxy.ProxyServer.HandleRequest | runner/proxyserver.py:34-82 | a GET, HEAD or OPTIONS request appends the upstream URL to the log before forwarding, whatever the outcome, and forwards the filtered headers, and replies as `ReplyFor` says; other methods log nothing |
| RunnerProxy.ProxyServer.Reset | runner/proxyserver.py:125-128 | `reset` returns the logged URLs in order and leaves the log empty |
| RunnerProxy.ResetTwice | runner/proxyserver.py:125-128 | a second `reset` straight after the first returns nothing |
| ChronoProxy.RequestPath | chronomunica/proxyserver.py:35-37 | the path Flask routes on holds no query string |
| ChronoProxy.Route | chronomunica/proxyserver.py:35-37 | a request is routed exactly when its method is GET, HEAD or OPTIONS and its path starts with "/"; the route's path is the request path without that "/" and without the query string |
| ChronoProxy.RoutedUrl | chronomunica/proxyserver.py:33-39 | the logged URL is the upstream base followed by the path of the request target |
| ChronoProxy.QueryStringDropped | chronomunica/proxyserver.py:35-40 | a routed target `<path>?<query>` is logged and forwarded under `<path>` alone (`GET /ldf?subject=x` as the base followed by `/ldf`): the query string is lost |
| ChronoProxy.ProxyServer.constructor | chronomunica/proxyserver.py:24-33 | a new proxy has an empty log and the upstream base built from protocol, host and port |
| ChronoProxy.ProxyServer.Proxy | chronomunica/proxyserver.py:37-70 | a routed request appends its URL to the log before forwarding, forwards every header but `Host`, and passes on the status, the headers not excluded and the body as `iter_content(decode_unicode=True)` and Flask turn it into bytes (decompressed, and transcoded to UTF-8 where `requests` finds a text encoding); a failure is re-raised; an unrouted request logs nothing |
| ChronoProxy.RelayedBody | chronomunica/proxyserver.py:63-64 | a body for which `requests` finds no text encoding reaches the client decompressed and otherwise unchanged; a decoded one is re-encoded into at least as many bytes as it has characters |
| ChronoProxy.BytesBodyUnchanged | chronomunica/proxyserver.py:63-64 | a body with no Content-Encoding and no text encoding is relayed byte for byte |
| ChronoProxy.Latin1Utf8Length | chronomunica/proxyserver.py:63-64 | decoding as ISO-8859-1 and sending as UTF-8 adds exactly one byte per byte outside ASCII |
| ChronoProxy.TextBodyUnchangedIffAscii | chronomunica/proxyserver.py:63-64 | an uncompressed `text/...` body without a charset reaches the client unchanged if and only if every byte is ASCII |
| ChronoProxy.TextBodyTranscoded | chronomunica/proxyserver.py:63-64 | the UTF-8 bytes `C3 A9` sent upstream as `text/turtle` reach the client as `C3 83 C2 A9` |
| ChronoProxy.ProxyServer.Reset | chronomunica/proxyserver.py:92-95 | `reset` returns the logged URLs in order and leaves the log empty |
| RunnerRunner.MaxDuration | runner/runner.py:36-39 | the days, hours, minutes and seconds add back up to timeout × executions, with hours below 24 and minutes and seconds below 60 |
| RunnerRunner.ExecutionsMatchTotal | runner/runner.py:29-55 | the loop runs exactly as many executions as `get_total_execution_count` announces |
| RunnerRunner.SavedStep | runner/runner.py:63-86 | one execution saves its result with the URLs logged since the last successful one and empties the log, or on failure saves nothing and leaves its URLs in the log |
| RunnerRunner.SavedCount | runner/runner.py:63-65 | exactly one result is saved per execution that returned |
| RunnerRunner.SavedUrlsHanded | runner/runner.py:83 | the URLs of the saved results are those handed over by the resets, in order |
| RunnerRunner.SavedUrlsConserved | runner/runner.py:83-86 | no URL is lost or invented: the saved URLs followed by the URLs still in the log are exactly the URLs requested, in order |
| RunnerRunner.ExperimentRunner.constructor | runner/runner.py:13-27 | the runner keeps its proxy and its engine |
| RunnerRunner.ExperimentRunner.ExecuteQuery | runner/runner.py:69-86 | a successful run returns the result with the proxy log attached and empties the log; a failing run returns nothing and leaves its requests in the log |
| RunnerRunner.ExperimentRunner.Execute | runner/runner.py:45-67 | the proxy starts, then every query × config × replication runs once in that order, then the proxy stops; the saved results and the log are those the per-run rule gives |
| RunnerRunner.ExperimentRunner.RunQuery | runner/runner.py:52-66 | one query runs all its configs and replications in order |
| RunnerRunner.ExperimentRunner.Replicate | runner/runner.py:55-66 | one config of one query runs `replication` times |
| RunnerRunner.ConstructAsWritten | runner/runner.py:13-27 | building the runner succeeds exactly when the experiment has every attribute the constructor reads |
| RunnerRunner.ConstructAsWrittenFails | runner/runner.py:24 | the experiment never has `query_engine_node`, so building the runner as written always fails |
| RunnerRunner.Construct | runner/runner.py:13-27 | with "node" as the node binary, the runner gets a fresh proxy with an empty log and the two bases, and a fresh engine with the experiment's cwd, bin, environment and context |
| ChronoExperiment.Enrich | chronomunica/experiment.py:81-91 | the result gets the URLs handed by the reset and their count; the unique count is at most the count, and at least 1 when URLs were requested |
| ChronoExperiment.EnrichUnique | chronomunica/experiment.py:90 | the unique count equals the count exactly when no URL was requested twice |
| ChronoExperiment.EntryUrls | chronomunica/experiment.py:81-91 | each execution's entry carries the engine's outcome and the URLs requested since the previous execution (the first also gets what was logged before) |
| ChronoExperiment.Completed | chronomunica/experiment.py:67-75 | the number of executions that complete is the total, or the position of the interrupted one when it comes before the end |
| ChronoExperiment.Stored | chronomunica/experiment.py:64-76 | a query's list holds one entry per completed replication, in order, cut short at an interruption |
| ChronoExperiment.RowsAll | chronomunica/experiment.py:56-77 | without an interruption every key gets a row, built from its own block of executions |
| ChronoExperiment.RowsCut | chronomunica/experiment.py:57-63 | an interruption inside a key's block keeps the earlier keys and the partial row of that key, and drops the later keys |
| ChronoExperiment.RowsAsDict | chronomunica/experiment.py:76-77 | with distinct keys, storing the rows in a dictionary keeps them all, in order |
| ChronoExperiment.ResultsUninterrupted | chronomunica/experiment.py:56-77 | without an interruption every config holds every query, and every query holds all its replications |
| ChronoExperiment.ResultsInterrupted | chronomunica/experiment.py:56-77 | an interruption at replication i of query q under config c keeps the earlier configs, the earlier queries of c, and the first i replications of q, and runs nothing more |
| ChronoExperiment.Decompose | chronomunica/experiment.py:53-65 | every execution number below the total is one config, query and replication position |
| ChronoExperiment.Experiment.constructor | chronomunica/experiment.py:23-34 | the experiment keeps its settings, and its queries are the split, stripped queries of the query files |
| ChronoExperiment.Experiment.ExecuteQuery | chronomunica/experiment.py:81-91 | an interrupted execution returns nothing and keeps its URLs in the log; otherwise the result is enriched with every logged URL and the log is emptied |
| ChronoExperiment.Experiment.Execute | chronomunica/experiment.py:50-79 | the proxy starts, the executions run config by config, query by query, until the end or the interruption, the results are serialised once to the file named by the clock, and the proxy stops; the results and the log are those the rules give |
| ChronoExperiment.Experiment.ExecuteConfigs | chronomunica/experiment.py:56-77 | the config loop stores one row per config visited and stops after an interruption |
| ChronoExperiment.Experiment.ExecuteConfig | chronomunica/experiment.py:60-76 | one config runs its queries in order, until the interruption |
| ChronoExperiment.Experiment.ExecuteRepetitions | chronomunica/experiment.py:64-75 | one query runs its replications in order, until the interruption |
| ChronoExperiment.Experiment.ConfigPass | chronomunica/experiment.py:57-76 | one pass of the config loop runs every query of the config and stores its row, as the rules give for that config |
| ChronoExperiment.Experiment.QueryPass | chronomunica/experiment.py:62-75 | one pass of the query loop runs its replications and stores the query's list, as the rules give for that query |
| ExperimentFile.OpenMode | experiment/experiment.py:9-15 | the experiment is created exactly when asked to and the path does not exist, loaded exactly when not asked to and the path is an existing file, and otherwise refused with the "Invalid experiment path" error |
| ExperimentFile.OpenModeRefuses | experiment/experiment.py:9-15 | an existing path is never created over, a missing path or a directory is never loaded, and asking to create an existing path or to load a missing one is refused |
| ExperimentFile.Defaults | experiment/experiment.py:34-55 | a created experiment has no queries or configs, 3 replications, a 60-second timeout, results and cwd in the working directory, `bin/query.js` under it, the proxy on localhost:3000 to localhost:3001, a lenient context with no sources, and `NODE_ENV=production` |
| ExperimentFile.Load | experiment/experiment.py:62-81 | loading keeps configs, replication, timeout, context and environment as written, and resolves one path per query file |
| ExperimentFile.LoadAsDict | experiment/experiment.py:17-81 | loading what `as_dict` wrote gives back the same settings when its paths are already resolved |
| ExperimentFile.LoadCreated | experiment/experiment.py:34-81 | loading the manifest a created experiment writes gives back the created settings |
| ExperimentFile.QueryFilesOf | experiment/experiment.py:84-87 | each query file is read once, in order, under its file URI |
| ExperimentFile.Experiment.constructor | experiment/experiment.py:9-15 | the experiment holds its settings and its query strings |
| ExperimentFile.Open | experiment/experiment.py:9-92 | a refused path gives the error and writes nothing; creating writes the defaults and loads no queries; loading reads the manifest and splits every query file into its queries |
| QueryFiles.QueryTexts | experiment/experiment.py:87-89 | splitting on "\n\nPREFIX" and giving the keyword back to every piece after the first yields one query more than the text has separators |
| QueryFiles.QueryTextsJoin | experiment/experiment.py:87-89 | the queries of a file, joined by blank lines, give back the file's text: the split loses nothing |
| QueryFiles.QueryTextsFirst | experiment/experiment.py:87-89 | the first query is a prefix of the text, the whole text when there is no separator, and ends where the first separator starts |
| QueryFiles.StrippedQueries | chronomunica/benchmark.py:34-36 | the stripped queries are as many as the split pieces |
| QueryFiles.StrippedQueriesSpec | chronomunica/experiment.py:42-44 | each stripped query is its re-prefixed piece with surrounding white space removed, and has none left |
| QueryFiles.QueryIdInjective | experiment/experiment.py:90 | two queries of one file never share an id `<uri>#<i>` |
| QueryFiles.FileEntries | experiment/experiment.py:88-91 | a file yields one (id, query) pair per query, the i-th under `<uri>#<i>` |
| QueryFiles.FileEntriesDistinct | experiment/experiment.py:88-91 | the ids of one file are pairwise distinct |
| QueryFiles.SingleFileEntries | chronomunica/experiment.py:38-47 | loading one file gives exactly its pairs, in file order |
| QueryFiles.SingleFileCount | chronomunica/benchmark.py:30-40 | a file with k separators loads as k + 1 queries |
| QueryFiles.QueryDictLookup | experiment/experiment.py:83-91 | the loaded dictionary is well formed and each id holds the query of the last pair carrying it |
| QueryFiles.LastFileQueries | chronomunica/experiment.py:38-47 | every query of the last file is found under its own id |
| QueryFiles.LoadQueries | chronomunica/experiment.py:37-48 | the loops fill exactly the dictionary of the stripped queries of every file in order |
| QueryFiles.LoadWith | chronomunica/benchmark.py:30-40 | the loops fill exactly the dictionary of all pairs, for any way of splitting a text |
| QueryFiles.PutFile | experiment/experiment.py:88-91 | the inner loop puts every pair of one file, in order, into the dictionary |
| Executions.Reps | runner/runner.py:55 | the repetitions of one pair are visited as indices 0 to n-1 |
| Executions.BlockLength | chronomunica/benchmark.py:48-53 | one outer item visits its inner items times the replication executions |
| Executions.BlockLengths | runner/runner.py:52-55 | the number of executions of an outer item does not depend on the item |
| Executions.NestedLength | runner/runner.py:52-55 | the nested loops execute outer × inner × replication times |
| Executions.BlockSnoc | runner/runner.py:54-55 | one more inner item adds its replication executions at the end |
| Executions.NestedSnoc | runner/runner.py:52-55 | one more outer item adds its block at the end |
| Executions.BlockTake | runner/runner.py:54-55 | the executions up to inner item k + 1 are those up to k followed by k's repetitions |
| Executions.NestedTake | runner/runner.py:52-55 | the executions up to outer item k + 1 are those up to k followed by k's block |
| Executions.BlockAppend | runner/runner.py:54-55 | the block of a concatenation of inner items is the concatenation of their blocks |
| Executions.NestedAppend | runner/runner.py:52-55 | the nested executions of a concatenation of outer items concatenate |
| Executions.BlockPrefix | runner/runner.py:54-55 | a partial block is the finished inner items followed by a prefix of the next one's repetitions |
| Executions.NestedPrefix | runner/runner.py:52-55 | a partial run is the finished outer items followed by a prefix of the next one's block |
| Executions.BlockExtend | runner/runner.py:54-55 | extending a finished prefix of a block by repetitions of the next inner item stays a prefix |
| Executions.NestedExtend | runner/runner.py:52-55 | extending a finished prefix by a part of the next block stays a prefix of the whole run |
| Executions.BlockAt | runner/runner.py:54-55 | execution b·n + i of a block is inner item b at repetition i |
| Executions.NestedIndex | runner/runner.py:52-55 | the executions of outer item a start at a times its block length |
| Executions.NestedAt | runner/runner.py:52-57 | execution a·(inner·n) + b·n + i is outer a, inner b, repetition i: every triple is visited once, in loop order |
| Executions.Runs | runner/runner.py:57-62 | the trace holds one run step per visited triple, in order |
| Executions.RunsAppend | runner/runner.py:52-62 | the run steps of concatenated visits concatenate |
| Executions.ResetOnReturn | runner/runner.py:76-87 | resetting the URL log only after an engine call that returns gives one outcome per execution |
| Executions.ResetOnReturnConserves | chronomunica/benchmark.py:58-65 | no URL is lost or duplicated: the URLs handed to results plus those still in the log are all that was requested |
| Executions.ResetOnReturnHanded | runner/runner.py:76-87 | an execution is handed URLs exactly when its engine call returned |
| Executions.ResetOnReturnPending | chronomunica/benchmark.py:58-65 | after a returned call the log is empty; after a raising call its URLs stay in the log for the next result |
| ToolBenchmark.QueryIdInjective | tool/benchmark.py:46-50 | two queries of one file never share an id `<stem>-<i>` |
| ToolBenchmark.Entries | tool/benchmark.py:43-51 | one file yields one (id, query) pair per split piece, with the keyword given back and nothing stripped |
| ToolBenchmark.LoadQueries | tool/benchmark.py:43-51 | the loaded dictionary is well formed, holds one query more than the text has separators, and its queries joined by blank lines give back the file's text |
| ToolBenchmark.MergedLastFile | tool/benchmark.py:78-80 | after `queries | load_queries(f)` for every file, each query of the last file is found under its id |
| ToolBenchmark.MergedValid | tool/benchmark.py:78-80 | merging keeps one entry per key |
| ToolBenchmark.MergeQueries | tool/benchmark.py:78-80 | the loop over the files computes the merge of all files in order |
| ToolBenchmark.WholeSecondsOfSeconds | tool/benchmark.py:28 | a timeout configured in whole seconds reaches `check_output` unchanged |
| ToolBenchmark.Overlay | tool/benchmark.py:16-18 | the environment copy with each configured variable set in turn is the overlay of the configured variables |
| ToolBenchmark.OverlayLookup | tool/benchmark.py:16-18 | the runner sees each configured variable with its configured value and every other variable as inherited |
| ToolBenchmark.LaunchOf | tool/benchmark.py:19-33 | the runner is started as `node <runner> --query <query> --config <config>` with the whole-second timeout, the overlaid environment and the working directory |
| ToolBenchmark.LaunchIgnoresContext | tool/benchmark.py:19-33 | the configured context never reaches the runner process |
| ToolBenchmark.FromFirstBrace | tool/benchmark.py:34 | the output is kept from its first `{` on, which exists exactly when the output holds one |
| ToolBenchmark.FromFirstBraceSkips | tool/benchmark.py:34 | text without a brace printed before the JSON does not change what is parsed |
| ToolBenchmark.IndexAfterNoise | tool/benchmark.py:34 | the first brace after brace-free noise is found shifted by the noise's length |
| ToolBenchmark.ExecuteQuery | tool/benchmark.py:14-40 | a timeout gives "Timeout after <n> seconds", a failed process its exception text, and output without a brace the IndexError text |
| ToolBenchmark.ExecuteQueryMeasured | tool/benchmark.py:34-35 | a result is returned only for an exited process whose output holds a brace, and is the parse of the output from that brace; leading brace-free noise changes nothing |
| ToolBenchmark.Row | tool/benchmark.py:85-100 | a query's list holds the outcomes of its n consecutive executions |
| ToolBenchmark.Filled | tool/benchmark.py:81-100 | the result dictionary has exactly the query ids as keys, in order |
| ToolBenchmark.FilledNext | tool/benchmark.py:84-100 | one pass of the outer loop fills exactly the current query's list |
| ToolBenchmark.FilledEmpty | tool/benchmark.py:81-83 | before the loop every query has an empty list |
| ToolBenchmark.LaunchesCarry | tool/benchmark.py:84-95 | there are queries × repeat launches and each passes one of the queries with the configured config, timeout, environment and directory |
| ToolBenchmark.RunBenchmark | tool/benchmark.py:75-100 | the launches are those of every merged query repeat times in order, each id gets its outcomes, and the execution counter ends one past the total |
| ToolBenchmark.RunQuery | tool/benchmark.py:84-100 | one pass of the outer loop appends the query's launches, fills its list and advances the counter by repeat |
| ToolBenchmark.Repeat | tool/benchmark.py:85-100 | the inner loop launches the query repeat times and records each outcome in order |
| ToolBenchmark.ResultsPerQuery | tool/benchmark.py:81-100 | with distinct ids every query ends with exactly repeat entries, the i-th being the outcome of its i-th execution |
| ChronoBenchmark.QueryCall | chronomunica/queryengine.py:23-28 | a call with the three parameters `query` takes does what the engine does; any other count raises the TypeError before any request |
| ChronoBenchmark.EntryAt | chronomunica/benchmark.py:58-65 | an execution stores a result exactly when the call returned, and otherwise `{"error": str(ex)}` |
| ChronoBenchmark.Row | chronomunica/benchmark.py:50-53 | a query's list holds the entries of its replication consecutive executions |
| ChronoBenchmark.Table | chronomunica/benchmark.py:48-53 | each query id gets the row of its own executions, in loop order |
| ChronoBenchmark.ResultsPerQuery | chronomunica/benchmark.py:48-53 | with distinct ids each query gets its own key in loop order with exactly replication entries |
| ChronoBenchmark.QueryIdsDistinct | chronomunica/benchmark.py:16-39 | the queries dictionary never repeats an id |
| ChronoBenchmark.EntryHanded | chronomunica/benchmark.py:58-65 | an answered execution carries exactly what `reset()` handed over after it |
| ChronoBenchmark.AnsweredUrlsConserved | chronomunica/benchmark.py:58-65 | the URLs attached to answered entries, followed by what remains in the log, are everything requested: none lost or attached twice |
| ChronoBenchmark.AnsweredUrlsHanded | chronomunica/benchmark.py:58-65 | the URLs of the answered entries are those `reset()` handed over, in order |
| ChronoBenchmark.AsWrittenNeverAnswers | chronomunica/benchmark.py:60 | as written every execution stores the TypeError text and the proxy's log is never handed over |
| ChronoBenchmark.CorrectedCallsEngine | chronomunica/benchmark.py:60 | called with the arguments `query` takes, each execution does what the engine does |
| ChronoBenchmark.Benchmark.constructor | chronomunica/benchmark.py:19-40 | the benchmark holds the manifest's settings and the stripped queries of every file keyed `<uri>#<i>` |
| ChronoBenchmark.Benchmark.ExecuteQuery | chronomunica/benchmark.py:58-65 | a returned call yields its result with the whole log, which is emptied; a raising call yields its error and leaves its requests in the log |
| ChronoBenchmark.Benchmark.Execute | chronomunica/benchmark.py:43-56 | the corrected loop of the chronomunica/benchmark.py:60 Findings row, whose three-argument call reaches the engine (as written every entry is the TypeError): every query's row is recorded in loop order, the counter ends one past the total, and the log keeps only what the last raising executions requested |
| ChronoBenchmark.Benchmark.Replicate | chronomunica/benchmark.py:50-53 | the inner loop records the replication entries of one query and keeps the log in step |
| ChronoBenchmark.ExecutionsMatchTotal | chronomunica/benchmark.py:46-53 | the loops execute exactly `len(queries) * replication` times, the total the log line reports |
| ResultConsistency.StepReceived | processing/result-consistency.py:28-31 | a counted file's count is appended to its query's list, created on the first one; a timed-out file changes nothing |
| ResultConsistency.FoldExpected | processing/result-consistency.py:15-23 | after the loop each query maps to the hash and count of its first counted file, and a query without one is absent |
| ResultConsistency.FoldReceived | processing/result-consistency.py:15-31 | after the loop each query maps to the counts of all its counted files in order, and a query without one is absent |
| ResultConsistency.FirstCounted | processing/result-consistency.py:15-23 | the first counted file of a query is one of the files, and when there is none no file of that query was counted |
| ResultConsistency.FirstHashShared | processing/result-consistency.py:21-24 | in agreeing files every counted file of a query has its first file's hash |
| ResultConsistency.StepDifferences | processing/result-consistency.py:21-27 | a file is reported exactly when it is counted, its query was seen, and its hash differs from the expected one, with the expected count |
| ResultConsistency.ConsistentSnoc | processing/result-consistency.py:12-31 | the files agree after one more exactly when they agreed and the new counted file agrees with every earlier one of its query |
| ResultConsistency.AgreesWithFirst | processing/result-consistency.py:21-24 | in agreeing files, a new file agrees with all earlier ones of its query exactly when it agrees with the first |
| ResultConsistency.NoDifferencesIffConsistent | processing/result-consistency.py:12-31 | nothing is reported exactly when, for every query, all counted files carry the same hash |
| ResultConsistency.CheckResultConsistency | processing/result-consistency.py:7-35 | the loop computes the fold over the files, and one summary line is produced per received query, in first-received order, with its id and counts |
| ResultConsistency.Visit | processing/result-consistency.py:15-31 | the loop body performs exactly one step of the fold |
| Diefficiency.Merged | processing/diefficiency.py:60-69 | the averaged list is as long as the longer input |
| Diefficiency.MergedAtCommon | processing/diefficiency.py:61-65 | a position both lists have takes the maximum of the new value, the midpoint, the old value and the previous merged value |
| Diefficiency.MergedAtAppended | processing/diefficiency.py:66-68 | a position beyond the first list takes the maximum of the new value and the last merged value, or -1 when there is none |
| Diefficiency.AverageLists | processing/diefficiency.py:60-69 | the method computes the merged list and leaves the second list empty |
| Diefficiency.AverageCommon | processing/diefficiency.py:61-65 | the first loop rewrites every common position and pops exactly that many values off the second list |
| Diefficiency.AppendRest | processing/diefficiency.py:66-68 | the second loop appends what is left, completing the merged list |
| Diefficiency.MergedMidpoint | processing/diefficiency.py:65 | the midpoint never exceeds both its operands, so a common position is the maximum of new value, old value and the previous merged one |
| Diefficiency.MergedBeyond | processing/diefficiency.py:60-69 | positions beyond the second list keep the first list's values |
| Diefficiency.MergedStep | processing/diefficiency.py:60-69 | within the second list, each merged value is at least the one before |
| Diefficiency.MergedChain | processing/diefficiency.py:60-69 | within the second list, merged values never decrease |
| Diefficiency.MergedNonDecreasing | processing/diefficiency.py:60-69 | when the second list is at least as long, the merged list is non-decreasing |
| Diefficiency.MergedRunningMax | processing/diefficiency.py:60-69 | every merged value within the second list is the running maximum of both lists up to that position, and is attained by one of them |
| Diefficiency.ConfigIdLastSegment | processing/diefficiency.py:71-79 | a config id depends only on the last path segment |
| Diefficiency.QueryIdLastSegment | processing/diefficiency.py:81-88 | a query id depends only on the last path segment and the fragment |
| Diefficiency.ConfigIdNoDash | processing/diefficiency.py:71-79 | a config id never holds a dash |
| Diefficiency.QueryIdShape | processing/diefficiency.py:81-88 | a query id's base never holds a dash, the id ends with `.<fragment>`, and two ids of one path are equal exactly when their fragments are |
| Diefficiency.MaxTime | processing/diefficiency.py:55-58 | the maximum time is at least the last time of each non-empty list and is one of them, or 0 |
| Diefficiency.FoldErrSticks | processing/diefficiency.py:35-42 | once a repetition fails, the constructor has raised and later repetitions change nothing |
| Diefficiency.NewResult | processing/diefficiency.py:28-58 | the constructor's loop computes the result the fold defines |
| Diefficiency.SourceFacts | processing/diefficiency.py:35-42 | the kept hash is truthy exactly when some repetition had a truthy hash, and every truthy hash equals it |
| Diefficiency.KeysPresentSnoc | processing/diefficiency.py:36-38 | one more repetition reads its keys exactly when it has a hash, and a count while no truthy hash was kept |
| Diefficiency.AgreeingSnoc | processing/diefficiency.py:40-42 | one more repetition agrees exactly when its hash equals every earlier truthy hash |
| Diefficiency.SourceSnoc | processing/diefficiency.py:36-42 | the kept hash and count stay those of the first truthy repetition |
| Diefficiency.StepOkIff | processing/diefficiency.py:36-42 | a repetition passes exactly when its keys are present and, once a truthy hash is kept, its hash matches; the hash and count kept are the first truthy ones |
| Diefficiency.SnocConditions | processing/diefficiency.py:36-42 | one more repetition keeps the keys present and the hashes agreeing exactly when its step passes |
| Diefficiency.FoldOkIff | processing/diefficiency.py:35-54 | the loop finishes exactly when every repetition has its keys and all truthy hashes agree, and then it keeps the first truthy hash and count |
| Diefficiency.BuildOkIff | processing/diefficiency.py:28-58 | a result is built exactly when the keys are present and the hashes agree, with the config and query ids and the first truthy hash |
| Diefficiency.ResultTimesLength | processing/diefficiency.py:48-52 | the averaged result times are as long as the longest bindings list |
| Diefficiency.SuccessesMembers | processing/diefficiency.py:103-114 | the kept results are exactly the ones whose construction did not raise |
| Diefficiency.LoadedConfigMembers | processing/diefficiency.py:104-114 | the results of one config are exactly its queries that build |
| Diefficiency.LoadedMembers | processing/diefficiency.py:98-114 | the loaded results are exactly the (config, query) pairs that build |
| Diefficiency.LoadResults | processing/diefficiency.py:98-114 | the loops compute the loaded results |
| Diefficiency.LoadConfig | processing/diefficiency.py:104-114 | the inner loop computes the results of one config |
| Diefficiency.YAxis | processing/diefficiency.py:116-117 | the y axis counts 1, 2, ... up to the length, and is empty for a length below 1 |
| Diefficiency.TicksBounds | processing/diefficiency.py:119-125 | the tick step is none exactly from 2000 on, and otherwise below a twentieth of the value and at most half of it once above 1 |
| Diefficiency.TicksMonotone | processing/diefficiency.py:119-125 | a larger value never gets a smaller tick step |
| Diefficiency.CeilSqrt | processing/diefficiency.py:128 | the ceiling of the square root is the least number whose square reaches n |
| Diefficiency.CeilDivBounds | processing/diefficiency.py:129 | the ceiling division is the least multiple count reaching a |
| Diefficiency.RowsColsGrid | processing/diefficiency.py:127-130 | a grid exists exactly for at least one subplot, with rows at most columns and just enough cells for every subplot |
| Plotter.WithCount | chronomunica/plotter.py:51 | exactly the repetitions that carry a result count are kept |
| Plotter.MaxCount | chronomunica/plotter.py:52 | the required count is at least every kept count and is one of them |
| Plotter.WithRequired | chronomunica/plotter.py:53-55 | exactly the repetitions whose count is the required one are kept |
| Plotter.BoundsGrow | chronomunica/plotter.py:57-66 | a time bound attained by some repetition stays attained when one more is considered |
| Plotter.AverageBetween | chronomunica/plotter.py:56-66 | each averaged arrival time lies between the same arrival's times of two of the averaged repetitions |
| Plotter.PairTimesKeeps | chronomunica/plotter.py:51-66 | `max` raises exactly when no repetition has a count; otherwise the required count bounds every count and exactly the repetitions with that count are averaged |
| Plotter.AverageErrors | chronomunica/plotter.py:57-66 | the averaging loop raises only a KeyError for missing bindings or an IndexError for a short repetition |
| Plotter.GroupedLookup | chronomunica/plotter.py:43-68 | the nested result is well formed and each query id holds the dictionary of its (config, times) pairs, absent when it has none |
| Plotter.LaterRowWins | chronomunica/plotter.py:67 | a config id met twice for one query keeps the later times |
| Plotter.SameFileNameSameConfig | chronomunica/plotter.py:24-32 | configs whose files share a name share an id, whatever their directories |
| Plotter.RowsErrSticks | chronomunica/plotter.py:45-67 | once a pair raises, the whole method has raised and later pairs change nothing |
| Plotter.ConfigPairsAppend | chronomunica/plotter.py:47 | the pairs of a config's concatenated queries concatenate |
| Plotter.PairsAppend | chronomunica/plotter.py:45-47 | the pairs of concatenated configs concatenate |
| Plotter.PairsPrefix | chronomunica/plotter.py:45-47 | the pairs visited so far are a prefix of all pairs, in loop order |
| Plotter.AverageErrSticks | chronomunica/plotter.py:57-66 | once a repetition raises, later repetitions change nothing |
| Plotter.AverageArrivals | chronomunica/plotter.py:56-66 | the loop computes the averaging fold over the kept repetitions |
| Plotter.RepetitionTimes | chronomunica/plotter.py:51-66 | the code of one pair computes its averaged times, or what it raises |
| Plotter.PairStep | chronomunica/plotter.py:46-67 | one more pair either raises its error or adds its (query id, config id, times) row |
| Plotter.PlaceInPlace | chronomunica/plotter.py:49-67 | creating the query's dictionary when absent and then setting the config's times is one placement |
| Plotter.AddPair | chronomunica/plotter.py:48-67 | one pass of the inner loop computes the pair's times and, when they exist, places them |
| Plotter.ComputeResultTimes | chronomunica/plotter.py:43-68 | `result_times` computes the grouped times of every pair, or the first error raised |
| Plotter.ConfigTimes | chronomunica/plotter.py:47-67 | the inner loop over one config's queries adds their rows in order, or the first error raised is the error of `result_times` |
| Plotter.PairPass | chronomunica/plotter.py:48-67 | one query of one config adds its row after the rows before it, or its error is the error of `result_times` |
| Plotter.YAxisCall | chronomunica/plotter.py:70-88 | the y axis looked up on the instance is given the instance and the length; it answers exactly when it declares two parameters, and otherwise raises a TypeError naming its parameter count and the two arguments given |
| Plotter.YAxisAsWrittenRaises | chronomunica/plotter.py:70-88 | declared with the one parameter `length`, the y axis called through the instance always raises a TypeError: one positional argument taken, two given |
| Plotter.YAxisCorrected | chronomunica/plotter.py:70-71 | declared with `self`, the axis answers, with one entry per result counting 1 up to the length and none for a length below 1 |
| RunnerBindingsHash.HashInput | runner/bindingshash.ts:20-32 | one hashed line per added binding |
| RunnerBindingsHash.GetOwnKey | runner/bindingshash.ts:23-27 | looking up a variable listed by the binding gives its own value |
| RunnerBindingsHash.LineIsSortedPairs | runner/bindingshash.ts:23-29 | with a consistent comparator that tells the pair texts apart, a binding's line is its `variable -> value` texts, ordered by the comparator, joined by newlines |
| RunnerBindingsHash.LineVariableOrder | runner/bindingshash.ts:23-29 | with a consistent comparator that tells the pair texts apart, the order in which a binding lists its variables does not change its line |
| RunnerBindingsHash.HashInputPermutation | runner/bindingshash.ts:20-36 | with a consistent comparator that tells the lines apart, the order in which bindings arrive does not change what is hashed |
| RunnerBindingsHash.HashInputKeepsDuplicates | runner/bindingshash.ts:20-32 | a binding added again contributes its line again: duplicates are hashed, not merged |
| RunnerBindingsHash.BindingLine | runner/bindingshash.ts:23-29 | the inner loops compute the binding's line |
| RunnerBindingsHash.Feed | runner/bindingshash.ts:34-36 | updating the hash with each line in turn feeds their concatenation |
| RunnerBindingsHash.BindingsHash.constructor | runner/bindingshash.ts:10-14 | a new hash keeps its algorithm and encoding and holds no bindings |
| RunnerBindingsHash.BindingsHash.Digest | runner/bindingshash.ts:16-39 | the digest is the hash, with the configured algorithm and encoding, of the concatenated lines of the added bindings as the comparator sorts them |
| RunnerBindingsHash.BindingsHash.Add | runner/bindingshash.ts:41-43 | adding appends the binding |
| RunnerBindingsHash.DigestTwice | runner/bindingshash.ts:16-39 | taking the digest changes nothing: two digests in a row are equal |
| PackageBindingsHash.SortedValues | packages/bindings-hash/lib/BindingsHash.ts:18-20 | one pushed string per added binding |
| PackageBindingsHash.SortedValuesPermutation | packages/bindings-hash/lib/BindingsHash.ts:18-23 | with a consistent comparator that tells the value strings apart, the order in which bindings arrive does not change what is pushed |
| PackageBindingsHash.NamesIgnored | packages/bindings-hash/lib/BindingsHash.ts:19 | bindings with the same values under other variable names push the same strings |
| PackageBindingsHash.NamesIgnoredExample | packages/bindings-hash/lib/BindingsHash.ts:19 | `?s = x` and `?o = x` cannot be told apart by the digest |
| PackageBindingsHash.BindingsHash.constructor | packages/bindings-hash/lib/BindingsHash.ts:10-14 | a new hash keeps its algorithm and encoding and holds no bindings |
| PackageBindingsHash.BindingsHash.Digest | packages/bindings-hash/lib/BindingsHash.ts:16-25 | the digest is the hash of the value strings of the added bindings as the comparator sorts them |
| PackageBindingsHash.BindingsHash.Add | packages/bindings-hash/lib/BindingsHash.ts:27-29 | adding appends the binding |
| PackageBindingsHash.DigestTwice | packages/bindings-hash/lib/BindingsHash.ts:16-25 | two digests in a row are equal |
| LibBindingsHash.BindingsHash.constructor | lib/BindingsHash.ts:7-9 | a new hash holds no bindings |
| LibBindingsHash.BindingsHash.Digest | lib/BindingsHash.ts:11-20 | the digest is the MD5 hash, in the requested encoding, of the value strings as the comparator sorts them |
| LibBindingsHash.BindingsHash.Add | lib/BindingsHash.ts:22-24 | adding appends the binding |
| LibBindingsHash.BindingsHash.Clear | lib/BindingsHash.ts:26-30 | popping until empty leaves no bindings |
| LibBindingsHash.ClearThenDigest | lib/BindingsHash.ts:11-30 | after clearing, the digest is that of nothing |
| LibBindingsHash.DigestOrderFree | lib/BindingsHash.ts:11-20 | two hashes with one consistent comparator that tells the value strings apart, holding the same bindings in any order, give the same digest |
| RunnerRequestCollector.Link | runner/requestcollector.ts:17-23 | a string, URL or Request input records one link and any other input none |
| RunnerRequestCollector.Recorded | runner/requestcollector.ts:16-24 | at most one link per call |
| RunnerRequestCollector.Collected | runner/requestcollector.ts:11-27 | with neither option the plain fetch records nothing; otherwise the count and links never exceed the calls |
| RunnerRequestCollector.RecordedAppend | runner/requestcollector.ts:16-24 | the links of consecutive calls concatenate |
| RunnerRequestCollector.RecordedAll | runner/requestcollector.ts:16-24 | every call records a link exactly when every input is a string, URL or Request |
| RunnerRequestCollector.RequestCollector.constructor | runner/requestcollector.ts:8-28 | a new collector keeps its options, has counted nothing and recorded no link |
| RunnerRequestCollector.RequestCollector.Fetch | runner/requestcollector.ts:11-27 | a call is counted when counting, its link recorded when collecting links, and the network's response returned |
| RunnerRequestCollector.RequestCollector.GetCount | runner/requestcollector.ts:34-36 | the count is the number of calls when counting, else 0 |
| RunnerRequestCollector.RequestCollector.GetLinks | runner/requestcollector.ts:38-40 | the links are those of every call when collecting links, else none |
| RunnerRequestCollector.PlainFetchRecordsNothing | runner/requestcollector.ts:11-27 | with neither option a call counts and records nothing and returns the network's response |
| SrcRequestCounter.RequestCounter.constructor | src/RequestCounter.ts:7-13 | a new counter has seen no call |
| SrcRequestCounter.RequestCounter.Fetch | src/RequestCounter.ts:9-12 | each call is recorded and forwarded unchanged to the network |
| SrcRequestCounter.RequestCounter.GetCount | src/RequestCounter.ts:19-21 | the count is the number of calls made |
| SrcRequestCounter.CountAfterCalls | src/RequestCounter.ts:7-21 | two calls count 2 and each returns its own network response |
| LibFetchCounter.CreateFetchCounter | lib/FetchCounter.ts:6-15 | a created counter is new, forwards to the network and starts at 0 |
| LibFetchCounter.SeparateCounters | lib/FetchCounter.ts:6-15 | two created counters count apart: calls through one leave the other at 0 |
| PackageFetchCounter.FetchCounterFactory.Create | packages/fetch-counter/lib/FetchCounterFactory.ts:4-13 | a created counter is new, forwards to the network and starts at 0 |
| PackageFetchCounter.CreatedApart | packages/fetch-counter/lib/FetchCounterFactory.ts:4-13 | two counters from one factory count apart |
| PackageRequestCounter.RequestCounterFactory.Create | packages/request-counter/lib/RequestCounterFactory.ts:4-13 | a created counter is new, forwards to the network and starts at 0 |
| PackageRequestCounter.RejectedCounted | packages/request-counter/lib/RequestCounterFactory.ts:8-11 | a request the network rejects is counted before it fails, and the rejection is passed on |
| Fetching.FetchCounter.constructor | lib/FetchCounter.ts:7-9 | a counter starts at 0 |
| Fetching.FetchCounter.Fetch | lib/FetchCounter.ts:10-13 | each call adds one and returns the network's response |
| ExecutorQueryExecution.FreshMetricsShape | packages/executor/lib/QueryExecution.ts:28-58 | a fresh run's metrics hold one interval per result, the intervals add up to the time from the start to the last result, the error is missing exactly when the stream ended normally, and a rejected query reports its error, no result and the requests sent before it rejected |
| ExecutorQueryExecution.CountingContext | packages/executor/lib/QueryExecution.ts:20-23 | the engine's context is the caller's with `fetch` set to the counter's and every other key unchanged |
| ExecutorQueryExecution.QueryExecution.constructor | packages/executor/lib/QueryExecution.ts:15-26 | a new execution keeps its query, engine, counter and hash, uses the counting context, and has no results or intervals |
| ExecutorQueryExecution.QueryExecution.Collect | packages/executor/lib/QueryExecution.ts:28-48 | collecting adds every streamed binding to the hash, one result and one interval per binding, every engine request to the counter, and rejects exactly with the stream's or the engine's error |
| ExecutorQueryExecution.QueryExecution.OnData | packages/executor/lib/QueryExecution.ts:34-43 | the data handler, over a stream's bindings, adds each to the hash and records one result and its interval |
| ExecutorQueryExecution.QueryExecution.Advance | packages/executor/lib/QueryExecution.ts:34-43 | one more binding extends the results, intervals and hash by exactly that binding |
| ExecutorQueryExecution.QueryExecution.OnDatum | packages/executor/lib/QueryExecution.ts:36-42 | one data event adds the binding, one result, and the time since the previous event |
| ExecutorQueryExecution.QueryExecution.Metrics | packages/executor/lib/QueryExecution.ts:50-58 | the metrics are the digest, the intervals, the request count, the results and the given error |
| QueryExecutorExecution.DurationSplits | packages/query-executor/lib/QueryExecution.ts:31-53 | the reported duration is the sum of the intervals plus the wait from the last result to the end |
| QueryExecutorExecution.QueryExecution.constructor | packages/query-executor/lib/QueryExecution.ts:16-27 | a new execution keeps its query, engine, counter and hash, uses the counting context, and has no results or intervals |
| QueryExecutorExecution.QueryExecution.Collect | packages/query-executor/lib/QueryExecution.ts:29-56 | collecting accumulates as the data handler does and resolves with the digest, intervals, request count, duration and results, or rejects exactly with the error |
| QueryExecutorExecution.QueryExecution.OnData | packages/query-executor/lib/QueryExecution.ts:36-45 | the data handler adds each binding to the hash and records one result and its interval |
| QueryExecutorExecution.QueryExecution.Advance | packages/query-executor/lib/QueryExecution.ts:36-45 | one more binding extends the results, intervals and hash by exactly that binding |
| QueryExecutorExecution.QueryExecution.OnDatum | packages/query-executor/lib/QueryExecution.ts:38-44 | one data event adds the binding, one result, and the time since the previous event |
| ExecutorManager.Logged | packages/executor/lib/QueryExecutionManager.ts:25-44 | at most one logged line per file |
| ExecutorManager.LoggedShape | packages/executor/lib/QueryExecutionManager.ts:25-44 | every file is logged unless an engine creation fails, and then that failure is what `execute` rejects with |
| ExecutorManager.LoggedLine | packages/executor/lib/QueryExecutionManager.ts:26-42 | the k-th line is the k-th file with the metrics of its own fresh run, errors included |
| ExecutorManager.RejectionSticks | packages/executor/lib/QueryExecutionManager.ts:26-28 | once an engine creation fails no later file is run |
| ExecutorManager.LoggedNext | packages/executor/lib/QueryExecutionManager.ts:25-44 | each further file adds its line when its engine is created; a failed creation is the rejection of `execute`, whatever follows |
| ExecutorManager.QueryExecutionManager.constructor | packages/executor/lib/QueryExecutionManager.ts:16-23 | the manager keeps its arguments |
| ExecutorManager.QueryExecutionManager.Execute | packages/executor/lib/QueryExecutionManager.ts:25-44 | `execute` logs exactly the lines of the specification and rejects exactly with its failure |
| ExecutorManager.QueryExecutionManager.ExecuteFile | packages/executor/lib/QueryExecutionManager.ts:27-40 | one pass of the loop yields the file's metrics on a fresh hash and counter |
| QueryExecutorManager.OutputPathName | packages/query-executor/lib/QueryExecutionManager.ts:60 | each query file's records go to `<name up to the first '.'>.json` |
| QueryExecutorManager.Repeated | packages/query-executor/lib/QueryExecutionManager.ts:34-59 | a file gets at most `repeatExecution` runs |
| QueryExecutorManager.RepeatedShape | packages/query-executor/lib/QueryExecutionManager.ts:34-59 | no run but the last failed; fewer runs than asked means the last failed or an engine creation rejected |
| QueryExecutorManager.RepeatedEntry | packages/query-executor/lib/QueryExecutionManager.ts:35-55 | the j-th record is the query file, the engine config and the metrics of the j-th fresh run |
| QueryExecutorManager.Writes | packages/query-executor/lib/QueryExecutionManager.ts:31-63 | at most one written file per query file |
| QueryExecutorManager.WrittenFile | packages/query-executor/lib/QueryExecutionManager.ts:60-62 | the k-th written file holds the records of the k-th query file at its output path |
| QueryExecutorManager.WrittenCount | packages/query-executor/lib/QueryExecutionManager.ts:31-63 | every query file is written exactly when no engine creation failed |
| QueryExecutorManager.RejectionSticks | packages/query-executor/lib/QueryExecutionManager.ts:31-36 | once an engine creation fails nothing more is written |
| QueryExecutorManager.WritesSettled | packages/query-executor/lib/QueryExecutionManager.ts:31-63 | when the loop over the query files ends, by reaching the last file or by a rejection, nothing further would be written |
| QueryExecutorManager.RunsSettled | packages/query-executor/lib/QueryExecutionManager.ts:34-59 | when the loop over the repetitions ends, by reaching the count or by a failure, further repetitions would add nothing |
| QueryExecutorManager.RunsStop | packages/query-executor/lib/QueryExecutionManager.ts:56-58 | after a failed run no further run of that file happens |
| QueryExecutorManager.Metrics | packages/executor/lib/QueryExecution.ts:50-58 | the snapshot of a run is its digest, intervals, request count, results and error |
| QueryExecutorManager.QueryExecutionManager.constructor | packages/query-executor/lib/QueryExecutionManager.ts:19-28 | the manager keeps its arguments |
| QueryExecutorManager.QueryExecutionManager.Execute | packages/query-executor/lib/QueryExecutionManager.ts:30-64 | with the snapshot taken as packages/executor takes it, `execute` writes exactly the files of the specification and rejects exactly with its failure |
| QueryExecutorManager.QueryExecutionManager.WriteNext | packages/query-executor/lib/QueryExecutionManager.ts:31-63 | one pass of the outer loop advances the specification by one file |
| QueryExecutorManager.QueryExecutionManager.ExecuteFile | packages/query-executor/lib/QueryExecutionManager.ts:32-59 | the inner loop produces the runs of the specification, stopping after a failed run |
| QueryExecutorManager.QueryExecutionManager.RepeatNext | packages/query-executor/lib/QueryExecutionManager.ts:34-58 | one pass of the inner loop adds the next run of the specification, and reports a failed run exactly when that run failed |
| QueryExecutorManager.QueryExecutionManager.Run | packages/query-executor/lib/QueryExecutionManager.ts:35-50 | one run measures the file on a fresh hash and counter |
| QueryExecutorManager.QueryExecutionManager.ExecuteAsWritten | packages/query-executor/lib/QueryExecutionManager.ts:50 | as written the first run reaches the missing `metrics` and rejects with a TypeError, so no file is written unless no run is asked for |
| LibQueryRunner.MeasuredShape | lib/QueryRunner.ts:18-66 | the measurement resolves exactly when the engine is built and answers, a failing stream included with its error; it names both files by their basenames, holds one interval per result, and the intervals add up to the time from the start to the last result |
| LibQueryRunner.MeasuredOrderFree | lib/QueryRunner.ts:18-66 | with a consistent comparator that tells the value strings apart, two engines giving the same results in any order give the same hash |
| LibQueryRunner.ExecuteAndMeasure | lib/QueryRunner.ts:18-66 | `executeAndMeasure` settles exactly as the measurement of the engine's answer says |
| LibQueryRunner.OnData | lib/QueryRunner.ts:52-62 | the data handler adds every binding to the hash, counts it and records the time since the previous result |
| LibQueryRunner.PairsMembers | lib/QueryRunner.ts:75-90 | a (config, query) pair is measured exactly when both entries are files of the two listings |
| LibQueryRunner.PairsCount | lib/QueryRunner.ts:75-90 | every query file is measured once with every config file |
| LibQueryRunner.OutputFileName | lib/QueryRunner.ts:86 | the output file is named after the two entry names up to their first '.' |
| LibQueryRunner.SerializedShape | lib/QueryRunner.ts:68-90 | the k-th file written holds the k-th pair's measurement under that pair's name, and the writes stop at the first measurement that rejects, whose error is what the call rejects with |
| LibQueryRunner.SerializedSticks | lib/QueryRunner.ts:75-90 | once a measurement rejects, later pairs change nothing |
| LibQueryRunner.ExecuteAndSerializeMultiple | lib/QueryRunner.ts:75-90 | the two loops write exactly the files of the specification and reject exactly with its failure |
| LibQueryRunner.SerializeConfig | lib/QueryRunner.ts:80-88 | the inner loop advances the specification by the pairs of one config entry |
| LibQueryRunner.SerializePair | lib/QueryRunner.ts:81-87 | one query entry measures and writes its pair when it is a file, and does nothing otherwise |
| RunnerQueryRunner.Lines | runner/queryrunner.ts:24 | a text has at least one line, and no line holds a line terminator |
| RunnerQueryRunner.LastIndex | runner/queryrunner.ts:24 | the last position of a character, or none when it does not occur |
| RunnerQueryRunner.LineSourceIsMatch | runner/queryrunner.ts:24 | a line yields at most one source; it yields one exactly when the expression matches the line, and then the source is the text between the '<' and '>' the greedy match settles on |
| RunnerQueryRunner.LineSourceFree | runner/queryrunner.ts:24 | a source holds neither '<' nor a line terminator |
| RunnerQueryRunner.QuerySourcesPerLine | runner/queryrunner.ts:24 | there are at most as many sources as lines, and a text is a source exactly when some line yields it |
| RunnerQueryRunner.QueryContextEntries | runner/queryrunner.ts:23-28 | `fetch` and `lenient` are the runner's own, any other key is the parsed context's when it has it, and `sources` otherwise holds the extracted sources |
| RunnerQueryRunner.ExecutedShape | runner/queryrunner.ts:31-74 | `run` fails exactly when building the engine, the query or the stream fails, with that error; otherwise one interval per result, spanning the start to the last result, with the given digest, count and links |
| RunnerQueryRunner.Collect | runner/queryrunner.ts:26 | each request the engine makes goes through the collector's `fetch` |
| RunnerQueryRunner.OnData | runner/queryrunner.ts:54-61 | the data handler adds every binding to the hash, counts it and records the time since the previous result |
| RunnerQueryRunner.QueryRunner.constructor | runner/queryrunner.ts:16-29 | a new runner has a fresh hash with the requested algorithm and encoding, a fresh collector counting and keeping links, the resolved paths, and the query context |
| RunnerQueryRunner.QueryRunner.Run | runner/queryrunner.ts:31-74 | `run` adds the answer's bindings to the hash and its requests to the collector, even when the engine rejects after sending them, and resolves with the execution of the specification |
| RunnerQueryRunner.NewQueryRunner | runner/queryrunner.ts:16-29 | building a runner throws exactly when the `--context` JSON does not parse, and otherwise sets up its query context |
| RunnerMeasurementRunner.MeasurementContextEntries | runner/measurementrunner.ts:26-31 | `fetch` is the counter's and `lenient` is on whatever the file says; every other key holds the file's last entry for it, or is absent |
| RunnerMeasurementRunner.MeasureShape | runner/measurementrunner.ts:32-83 | a record holds an error exactly when the engine, the query or the stream fails; otherwise one interval per result, spanning the start to the last result |
| RunnerMeasurementRunner.MeasurementSerializer.constructor | runner/measurementserializer.ts:6-8 | a new serializer has its path and has written nothing |
| RunnerMeasurementRunner.MeasurementSerializer.Serialize | runner/measurementserializer.ts:10-12 | each record is written to the one path, replacing what was there |
| RunnerMeasurementRunner.MeasurementRunner.constructor | runner/measurementrunner.ts:15-20 | the runner keeps its hash, counter and serializer |
| RunnerMeasurementRunner.MeasurementRunner.Run | runner/measurementrunner.ts:22-40 | a context file that does not parse rejects before anything is written; otherwise the answer's bindings and requests are added and exactly one record, named by the two ids, is written to the serializer's path |
| RunnerMeasurementRunner.MeasurementRunner.Execute | runner/measurementrunner.ts:42-83 | `execute` adds the answer's bindings and requests and yields its measurement or error |
| SrcQueryRunner.Compiles | src/QueryRunner.ts:27 | reading counter members type-checks exactly when the counter declares each one |
| SrcQueryRunner.WrittenNameFree | src/ResultSerializer.ts:12 | ids free of '/' give a file name free of '/' |
| SrcQueryRunner.ResultSerializer.constructor | src/ResultSerializer.ts:7-9 | a new serializer has its path and has written no file |
| SrcQueryRunner.ResultSerializer.FileOf | src/ResultSerializer.ts:12-13 | the corrected behaviour of the src/ResultSerializer.ts:12 Findings row (as written every name is `undefined-undefined-<ms>.json`): a record goes to a file named by its ids and the time of writing |
| SrcQueryRunner.ResultSerializer.Serialize | src/ResultSerializer.ts:11-15 | under the corrected name of the src/ResultSerializer.ts:12 Findings row: a record is written to its file, replacing what that file held, and no other file changes |
| SrcQueryRunner.BindingsHash.Add | src/QueryRunner.ts:54 | adding appends the binding |
| SrcQueryRunner.BindingsHash.Digest | src/QueryRunner.ts:61 | the digest is that of the bindings added |
| SrcQueryRunner.QueryContextEntries | src/QueryRunner.ts:24-28 | `fetch` is the counter's whatever the file says; every other key holds the file's last entry for it, or is absent |
| SrcQueryRunner.MeasureShape | src/QueryRunner.ts:29-69 | a record holds an error exactly when the engine, the query or the stream fails, that error unchanged; otherwise one interval per result, spanning the start to the last result |
| SrcQueryRunner.Count | src/QueryRunner.ts:27 | each request the engine makes goes through the counter's `fetch` |
| SrcQueryRunner.OnData | src/QueryRunner.ts:53-59 | the data handler adds every binding to the hash, counts it and records the time since the previous result |
| SrcQueryRunner.QueryRunner.constructor | src/QueryRunner.ts:14-18 | the runner keeps its hash, counter and serializer |
| SrcQueryRunner.QueryRunner.Run | src/QueryRunner.ts:20-37 | a context file that does not parse rejects before anything is written; otherwise the answer's bindings and requests are added and exactly one record goes to a file whose name is made of the ids and the time, the corrected name of the src/ResultSerializer.ts:12 Findings row |
| SrcQueryRunner.QueryRunner.Execute | src/QueryRunner.ts:39-69 | `execute` adds the answer's bindings and requests and yields its measurement or raw error |
| SrcQueryRunner.AsWrittenRejected | src/QueryRunner.ts:27 | as written, reading `fetch` from an `IRequestCounter` is rejected by the type checker |
| SrcQueryRunner.AccessedCompiles | src/QueryRunner.ts:27 | reading the counter through `getFetch` and `getCount` type-checks |
| SrcQueryRunner.AsWrittenNamesCollide | src/ResultSerializer.ts:12 | as written, every record written in the same millisecond gets the same file name, whatever its ids |
| SrcQueryRunner.WrittenNameKeepsIds | src/ResultSerializer.ts:12 | with the record's own ids, records free of '-' in the config id, written in the same millisecond, share a file exactly when their ids are equal |
| Sorting.Sort | experiment/result.py:63 | Python's `sorted` on strings gives a sorted permutation of its input |
| Sorting.SortPermutationInvariant | experiment/result.py:61-65 | the sorted form of the canonical strings forgets the order they were given in |
| Sorting.SortBy | runner/bindingshash.ts:18-32 | `sort` with a comparator returns a permutation of its input |
| Sorting.SortBySorted | runner/bindingshash.ts:18-32 | with a consistent comparator the result of `sort` is ordered by it |
| Sorting.SortByPermutationInvariant | runner/bindingshash.ts:18-32 | with a consistent comparator that tells the texts present apart, the sorted form forgets the arrival order |
| Sorting.TiesKeepArrivalOrder | runner/bindingshash.ts:18-32 | texts the comparator ties keep their arrival order, since `sort` is stable |
| Sorting.TiedTextsFollowArrival | runner/bindingshash.ts:18-32 | two canonically equivalent texts that `localeCompare` ties come out in the order they arrived, so the hashed text depends on arrival order |
| Dicts.SortByKey | experiment/result.py:112-114 | `sort_keys` reorders a dictionary's entries and keeps every one of them |
| Dicts.SortByKeyAscending | experiment/result.py:112-114 | after `sort_keys` the keys are strictly ascending and still distinct |
| Dicts.SortByKeyGet | experiment/result.py:112-114 | after `sort_keys` every key has the value it had |
| Timestamps.ParseFormatIso | experiment/result.py:73-99 | parsing the `TIME_FORMAT` text of a time gives back that time to the whole second |
| NodePaths.TrimSeparators | src/QueryRunner.ts:21-22 | the trailing '/' characters `basename` ignores are dropped, and nothing else |
| NodePaths.StemFree | src/QueryRunner.ts:21-22 | an id taken from a file name holds neither '/' nor '.' |
| NodePaths.BasenameOfJoin | packages/query-executor/lib/QueryExecutionManager.ts:60 | joining a directory with a non-empty name free of '/' gives a path whose basename is the name |
| NodePaths.ResolvePath | src/ResultSerializer.ts:13 | `resolve` of a directory and a non-empty name free of '/' gives a path whose basename is the name, absolute once the working directory is |

## Left out

- Processes, pipes, `Timer`, threads, HTTP serving and forwarding (`ThreadingHTTPServer`, `urlopen`, Flask, `requests`), file reading and writing, and the clocks (`time_ns`, `utcnow`, `Date.now`) are parameters or returned values; each module says which.
- JSON parsing and serialisation, md5/sha256 and `createHash` are function parameters; the model fixes the texts fed to them, not the digests.
- RunnerBindingsHash.HashInputPermutation, PackageBindingsHash.SortedValuesPermutation, LibBindingsHash.DigestOrderFree and LibQueryRunner.MeasuredOrderFree: `localeCompare` is a comparator parameter, so these hold only for a consistent comparator that ties no two distinct texts present; real collation ties canonically equivalent texts, and then a stable sort keeps their arrival order.
- Strings.Lower and Strings.Capitalize: map ASCII letters only, whereas Python's `str.lower` and `str.capitalize` use Unicode case mappings; the ids in diefficiency and the proxies' `host` header test are modelled under that restriction.
- NodePaths.JoinPath and NodePaths.ResolvePath: join with one '/' without normalising "." and ".." segments or repeated separators.
- ChronoProxy.ProxyServer.Proxy: undoing the Content-Encoding and choosing the text decoder from the Content-Type are parameters (`requests` and urllib3 are not part of this model); a compressed body that fails to decompress raises after the headers were sent, which the model does not show, and the body is relayed whole rather than in chunks.
- ChronoProxy.Route: Flask's percent-decoding of the `<path:path>` argument is not modelled; the query string is dropped, as Flask does.
- RunnerQueryEngine.QueryEngine.QueryBindings: stderr is read as one given text; a child that fills the stderr pipe before the stdout loop ends would stall until the timer kills it, and that run would be marked as a timeout; the pipe's capacity is not modelled.
- SrcQueryRunner.Measure: keeps the error's message as text, whereas `JSON.stringify` writes an `Error` object as `{}`, so the file written from src/QueryRunner.ts holds an empty error object.
- JavaScript errors are modelled as their text (`String(error)`), and promise and stream machinery as the settled value and the sequence of data events.
- runner/requestcounter.ts and src/BindingsHash.ts are not part of this model: `RunnerRequestCollector` stands in for `IRequestCounter` (same three members), and `SrcQueryRunner.BindingsHash` keeps its bindings and digests them with a given function.
- RunnerProxy.ReplyFor: the chunked branch of runner/proxyserver.py:59-65 is guarded by `chunk_left`, which is unset before the first read, so the body is relayed whole; per-chunk decoding is not modelled.
- RunnerProxy.ProxyServer.Reset and ChronoProxy.ProxyServer.Reset: modelled sequentially; the source takes no lock, and no atomicity under concurrent requests is claimed.
- Floating-point arithmetic in the plotting and diefficiency code is `real`, and `ceil(sqrt(n))` is the integer ceiling square root; `urlparse` is replaced by the URL's path and fragment given as inputs.
- matplotlib drawing (`plot_diefficiency`), the command-line entry points, logging and the utils modules.
- Dictionaries keep insertion order; a JavaScript object that puts integer-like keys first is modelled by the same order, which is what the runners' string keys give.
- The md5 `push` calls in lib/BindingsHash.ts and packages/bindings-hash do not update the digest; what the hash object returns is a parameter of the texts pushed.

## Findings

| source | as written | input that shows it | evidently intended | confidence | as-written member | corrected member |
|---|---|---|---|---|---|---|
| runner/runner.py:24 | reads `experiment.query_engine_node`, which experiment/experiment.py never sets | any experiment, created or loaded | use the Node binary `node` | not executed | RunnerRunner.ConstructAsWrittenFails | RunnerRunner.Construct |
| chronomunica/benchmark.py:60 | calls `query_engine.query(query)` with one argument; `query` takes three besides `self` | any query | pass the query string, the timeout and the config path that `query` declares | not executed | ChronoBenchmark.AsWrittenNeverAnswers | ChronoBenchmark.CorrectedCallsEngine |
| experiment/result.py:67-71 | `__eq__` compares `hash(self)`, and `__hash__` returns md5 bytes, so `hash()` raises `TypeError` | any two results | compare the result hashes | not executed | ExperimentResult.EqualsAsWrittenRaises | ExperimentResult.EqualsOrderFree |
| chronomunica/plotter.py:70 | `make_diefficiency_y_axis(length)` is a method without `self`, called as `self.make_diefficiency_y_axis(n)` | any result with a plot | declare `self` | not executed | Plotter.YAxisAsWrittenRaises | Plotter.YAxisCorrected |
| packages/query-executor/lib/QueryExecutionManager.ts:50 | calls `execution.metrics()`, which this package's `QueryExecution` does not have | any query file | read the metrics of packages/executor's `QueryExecution`, which the loop was written against | not executed | QueryExecutorManager.QueryExecutionManager.ExecuteAsWritten | QueryExecutorManager.QueryExecutionManager.Execute |
| src/QueryRunner.ts:27 | reads `fetch` and `count` from an `IRequestCounter`, whose members are `getFetch` and `getCount` | compiling the file | call `getFetch()` and `getCount()` | not executed | SrcQueryRunner.AsWrittenRejected | SrcQueryRunner.AccessedCompiles |
| src/ResultSerializer.ts:12 | names the file from `configId` and `queryId` of the record, which the record does not have, so both are `undefined` | two records written in the same millisecond | use the record's `config` and `query` ids | not executed | SrcQueryRunner.AsWrittenNamesCollide | SrcQueryRunner.WrittenNameKeepsIds |
