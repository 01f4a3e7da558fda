/**
 * chronomunica/queryengine.py: the older executor. It reads the engine's stdout with the same
 * normalisation and stopping rule as runner/queryengine.py, but keeps bindings and other output
 * in two plain dictionaries, overwrites rather than concatenates, lets a JSON error escape and
 * turns any non-zero exit status into a `TimeoutError`.
 *
 * The child process is replaced by the (elapsed-ns, line) pairs it printed, the code `poll()`
 * returned and its stderr text; `loads`, `dumps` and the sha256 digest are parameters.
 */
module ChronoQueryEngine {
  import opened Wrappers
  import opened Strings
  import opened Dicts
  import opened Timestamps
  import opened Seqs
  import opened ExperimentResult
  import opened RunnerQueryEngine

  /** `result_bindings` and `unknown_output`. */
  datatype Store<J> = Store(bindings: Dict<int, J>, unknown: Dict<int, string>)

  /** The read loop so far: the two dictionaries, or the line whose `loads` raised. */
  datatype Scan<J> = Scanned(store: Store<J>) | ParseFailed(line: string)

  /** A normalised line that the loop hands to `loads`. */
  predicate LooksLikeObject(n: string) {
    StartsWith(n, "{") && EndsWith(n, "}")
  }

  /** One normalised, non-empty line that does not stop the loop. */
  function StoreLine<J>(parse: string -> Option<J>, s: Store<J>, t: int, n: string): Scan<J> {
    if LooksLikeObject(n) then
      match parse(n)
      case Some(v) => Scanned(s.(bindings := Put(s.bindings, t, v)))
      case None => ParseFailed(n)
    else Scanned(s.(unknown := Put(s.unknown, t, n)))
  }

  /** A line either replaces the binding under its key or overwrites the other output under it,
      never both, and never touches another key. */
  lemma StoreLineEffect<J>(parse: string -> Option<J>, s: Store<J>, t: int, n: string, k: int)
    requires Dicts.Valid(s.bindings) && Dicts.Valid(s.unknown)
    ensures StoreLine(parse, s, t, n).ParseFailed? <==> LooksLikeObject(n) && parse(n).None?
    ensures StoreLine(parse, s, t, n).ParseFailed? ==> StoreLine(parse, s, t, n).line == n
    ensures StoreLine(parse, s, t, n).Scanned? ==>
      var after := StoreLine(parse, s, t, n).store;
      Dicts.Valid(after.bindings) && Dicts.Valid(after.unknown)
      && (LooksLikeObject(n) ==>
            after.unknown == s.unknown
            && Get(after.bindings, k) == if k == t then parse(n) else Get(s.bindings, k))
      && (!LooksLikeObject(n) ==>
            after.bindings == s.bindings
            && Get(after.unknown, k) == if k == t then Some(n) else Get(s.unknown, k))
  {
    if LooksLikeObject(n) {
      if parse(n).Some? {
        GetPut(s.bindings, t, parse(n).value, k);
      }
    } else {
      GetPut(s.unknown, t, n, k);
    }
  }

  /** A line read, normalised, with its elapsed key. */
  function NormaliseLine(line: (int, string)): (int, string) {
    (line.0, Normalise(line.1))
  }

  /** Each line read, normalised, with its elapsed key. */
  function NormaliseAll(lines: seq<(int, string)>): seq<(int, string)> {
    Map(NormaliseLine, lines)
  }

  /** The read loop over normalised lines none of which stops it. */
  function ScanLines<J>(parse: string -> Option<J>, lines: seq<(int, string)>): Scan<J> {
    if |lines| == 0 then Scanned(Store([], []))
    else
      match ScanLines(parse, lines[..|lines| - 1])
      case ParseFailed(l) => ParseFailed(l)
      case Scanned(s) =>
        var (t, n) := lines[|lines| - 1];
        if n == "" then Scanned(s) else StoreLine(parse, s, t, n)
  }

  /** Scanning one more line. */
  lemma ScanLinesSnoc<J>(parse: string -> Option<J>, read: seq<(int, string)>, t: int, n: string)
    ensures ScanLines(parse, read + [(t, n)])
         == match ScanLines(parse, read)
            case ParseFailed(l) => ParseFailed(l)
            case Scanned(s) => if n == "" then Scanned(s) else StoreLine(parse, s, t, n)
  {
    assert (read + [(t, n)])[..|read|] == read;
  }

  /** What the read loop leaves behind: the lines before the first stopping line, normalised and scanned. */
  function Collected<J>(parse: string -> Option<J>, lines: seq<(int, string)>): Scan<J> {
    ScanLines(parse, NormaliseAll(lines[..FirstStop(lines)]))
  }

  /** Once `loads` has raised, no later line changes the outcome. */
  lemma {:induction false} ParseFailureSticks<J>(parse: string -> Option<J>, lines: seq<(int, string)>, i: nat, j: nat)
    requires i <= j <= |lines| && ScanLines(parse, lines[..i]).ParseFailed?
    ensures ScanLines(parse, lines[..j]) == ScanLines(parse, lines[..i])
    decreases j
  {
    if j > i {
      ParseFailureSticks(parse, lines, i, j - 1);
      assert lines[..j][..j - 1] == lines[..j - 1];
    }
  }

  /** Every key of `d` is the elapsed key of one of `lines`. */
  predicate KeysAmong<V>(d: Dict<int, V>, lines: seq<(int, string)>) {
    forall i :: 0 <= i < |d| ==> exists j :: 0 <= j < |lines| && lines[j].0 == d[i].0
  }

  /** Keys among some lines are among those lines and one more. */
  lemma KeysAmongExtend<V>(d: Dict<int, V>, lines: seq<(int, string)>)
    requires |lines| > 0 && KeysAmong(d, lines[..|lines| - 1])
    ensures KeysAmong(d, lines)
  {
    var init := lines[..|lines| - 1];
    forall i | 0 <= i < |d| ensures exists j :: 0 <= j < |lines| && lines[j].0 == d[i].0 {
      var j :| 0 <= j < |init| && init[j].0 == d[i].0;
      assert lines[j] == init[j];
    }
    assert forall i :: 0 <= i < |d| ==> exists j :: 0 <= j < |lines| && lines[j].0 == d[i].0;
  }

  /** Storing under the key of one more line keeps every key among the lines. */
  lemma KeysAmongPut<V>(d: Dict<int, V>, lines: seq<(int, string)>, v: V)
    requires |lines| > 0 && KeysAmong(d, lines[..|lines| - 1])
    ensures KeysAmong(Put(d, lines[|lines| - 1].0, v), lines)
  {
    var t := lines[|lines| - 1].0;
    PutKeys(d, t, v);
    KeysAmongExtend(d, lines);
    var r := Put(d, t, v);
    forall i | 0 <= i < |r| ensures exists j :: 0 <= j < |lines| && lines[j].0 == r[i].0 {
      if r[i].0 != t {
        var m :| 0 <= m < |d| && d[m].0 == r[i].0;
      }
    }
  }

  /** Both dictionaries have distinct keys, each the elapsed key of some line read. */
  lemma {:induction false} ScanKeys<J>(parse: string -> Option<J>, lines: seq<(int, string)>)
    ensures ScanLines(parse, lines).Scanned? ==>
      var s := ScanLines(parse, lines).store;
      Dicts.Valid(s.bindings) && Dicts.Valid(s.unknown) && KeysAmong(s.bindings, lines) && KeysAmong(s.unknown, lines)
  {
    if |lines| > 0 && ScanLines(parse, lines).Scanned? {
      var init := lines[..|lines| - 1];
      ScanKeys(parse, init);
      var s := ScanLines(parse, init).store;
      var (t, n) := lines[|lines| - 1];
      KeysAmongPut(s.unknown, lines, n);
      KeysAmongExtend(s.bindings, lines);
      if n != "" && LooksLikeObject(n) {
        KeysAmongPut(s.bindings, lines, parse(n).value);
      }
      if n != "" {
        StoreLineEffect(parse, s, t, n, t);
      }
    }
  }

  /** Nothing printed after the stopping line affects the outcome. */
  lemma CollectedIgnoresAfterStop<J>(parse: string -> Option<J>, lines: seq<(int, string)>, k: nat, more: seq<(int, string)>)
    requires k < |lines| && Stops(lines[k].1)
    ensures Collected(parse, lines + more) == Collected(parse, lines)
  {
    FirstStopAppend(lines, k, more);
    var m := FirstStop(lines);
    assert (lines + more)[..m] == lines[..m];
  }

  /** A line before the stopping one whose `loads` raised decides the outcome of the read loop. */
  lemma CollectedAfterFailure<J>(parse: string -> Option<J>, lines: seq<(int, string)>, i: nat)
    requires i <= FirstStop(lines) && ScanLines(parse, NormaliseAll(lines[..i])).ParseFailed?
    ensures Collected(parse, lines) == ScanLines(parse, NormaliseAll(lines[..i]))
  {
    ScannedPrefixFailure(parse, lines, i, FirstStop(lines));
  }

  lemma ScannedPrefixFailure<J>(parse: string -> Option<J>, lines: seq<(int, string)>, i: nat, m: nat)
    requires i <= m <= |lines| && ScanLines(parse, NormaliseAll(lines[..i])).ParseFailed?
    ensures ScanLines(parse, NormaliseAll(lines[..m])) == ScanLines(parse, NormaliseAll(lines[..i]))
  {
    var read := NormaliseAll(lines[..m]);
    MapTakeOfTake(NormaliseLine, lines, i, m);
    ParseFailureSticks(parse, read, i, m);
    assert read[..m] == read;
  }

  /** `if proc_returncode:` — any status other than None and 0 counts as a timeout. */
  predicate Truthy(returnCode: Option<int>) {
    returnCode.Some? && returnCode.value != 0
  }

  /** The dictionary `query` returns. */
  datatype QueryRecord<J> = QueryRecord(
    timeStart: string, timeEnd: string, timeTaken: real,
    resultCount: nat, resultCountUnique: nat, resultHash: string,
    resultBindings: Dict<int, J>, otherOutput: Dict<int, string>, error: string)

  /** How `query` ends: with a record, with the `loads` error on a line, or with `TimeoutError`. */
  datatype QueryOutcome<J> = Completed(record: QueryRecord<J>) | JsonError(line: string) | Timeout(code: int)

  /** The record built from what the loop collected. */
  function Record<J>(s: Store<J>, dump: J -> string, digest: string -> string,
                     timeStart: DateTime, timeEnd: DateTime, stderrText: string): (r: QueryRecord<J>)
    requires Timestamps.Valid(timeStart) && Timestamps.Valid(timeEnd)
    ensures r.resultCountUnique <= r.resultCount == |s.bindings|
    ensures r.resultBindings == s.bindings && r.otherOutput == s.unknown
  {
    QueryRecord(FormatSpaced(timeStart), FormatSpaced(timeEnd), SecondsBetween(timeStart, timeEnd),
                |s.bindings|, CountUnique(dump, Values(s.bindings)),
                digest(Concat(CanonicalStrings(dump, Values(s.bindings)))),
                s.bindings, s.unknown, stderrText)
  }

  /** The hash input, and with it the record's hash and unique count, depends only on the
      multiset of binding values, not on the order they arrived in. */
  lemma RecordOrderFree<J>(s: Store<J>, s': Store<J>, dump: J -> string, digest: string -> string,
                           timeStart: DateTime, timeEnd: DateTime, stderrText: string)
    requires Timestamps.Valid(timeStart) && Timestamps.Valid(timeEnd)
    requires multiset(Values(s.bindings)) == multiset(Values(s'.bindings))
    ensures Record(s, dump, digest, timeStart, timeEnd, stderrText).resultHash
         == Record(s', dump, digest, timeStart, timeEnd, stderrText).resultHash
    ensures Record(s, dump, digest, timeStart, timeEnd, stderrText).resultCountUnique
         == Record(s', dump, digest, timeStart, timeEnd, stderrText).resultCountUnique
  {
    CanonicalStringsPermutation(dump, Values(s.bindings), Values(s'.bindings));
  }

  /** The read loop of `query`. */
  method ReadStdout<J>(parse: string -> Option<J>, lines: seq<(int, string)>) returns (scan: Scan<J>)
    ensures scan == Collected(parse, lines)
  {
    var resultBindings: Dict<int, J> := [];
    var unknownOutput: Dict<int, string> := [];
    var i := 0;
    while i < |lines|
      invariant 0 <= i <= FirstStop(lines)
      invariant ScanLines(parse, NormaliseAll(lines[..i])) == Scanned(Store(resultBindings, unknownOutput))
    {
      var (nsLine, raw) := lines[i];
      var line := Normalise(raw);
      MapSnoc(NormaliseLine, lines, i);
      ScanLinesSnoc(parse, NormaliseAll(lines[..i]), nsLine, line);
      if line != "" {
        if EndsWith(line, "]") {
          break;
        } else if StartsWith(line, "{") && EndsWith(line, "}") {
          match parse(line) {
            case None =>
              CollectedAfterFailure(parse, lines, i + 1);
              return ParseFailed(line);
            case Some(queryResult) =>
              resultBindings := Put(resultBindings, nsLine, queryResult);
          }
        } else {
          unknownOutput := Put(unknownOutput, nsLine, line);
        }
      }
      i := i + 1;
    }
    assert i == FirstStop(lines);
    scan := Scanned(Store(resultBindings, unknownOutput));
  }

  /** The engine as configured: the resolved `bin` and the serialised context, if any. */
  class QueryEngine {
    var bin: string
    var context: Option<string>

    /** The context is kept serialised whenever the configuration has one, even an empty one. */
    constructor<C>(bin: string, context: Option<C>, dumpContext: C -> string)
      ensures this.bin == bin
      ensures this.context == if context.Some? then Some(dumpContext(context.value)) else None
    {
      this.bin := bin;
      this.context := if context.Some? then Some(dumpContext(context.value)) else None;
    }

    /** `query`: the command line and environment, and how the run ends. */
    method Query<J>(queryString: string, configPath: string,
                    parse: string -> Option<J>, dump: J -> string, digest: string -> string,
                    timeStart: DateTime, timeEnd: DateTime,
                    lines: seq<(int, string)>, returnCode: Option<int>, stderrText: string)
      returns (outcome: QueryOutcome<J>, args: seq<string>, childEnv: Dict<string, string>)
      requires Timestamps.Valid(timeStart) && Timestamps.Valid(timeEnd)
      ensures args == Arguments("node", bin, queryString, context)
      ensures childEnv == [("COMUNICA_CONFIG", configPath)]
      ensures outcome.JsonError? <==> Collected(parse, lines).ParseFailed?
      ensures outcome.JsonError? ==> outcome.line == Collected(parse, lines).line
      ensures outcome.Timeout? <==> Collected(parse, lines).Scanned? && Truthy(returnCode)
      ensures outcome.Timeout? ==> outcome.code == returnCode.value
      ensures outcome.Completed? ==>
        outcome.record == Record(Collected(parse, lines).store, dump, digest, timeStart, timeEnd, stderrText)
    {
      args := Arguments("node", bin, queryString, context);
      childEnv := [("COMUNICA_CONFIG", configPath)];
      var scan := ReadStdout(parse, lines);
      match scan {
        case ParseFailed(line) =>
          outcome := JsonError(line);
        case Scanned(store) =>
          if returnCode.Some? && returnCode.value != 0 {
            outcome := Timeout(returnCode.value);
          } else {
            outcome := Completed(Record(store, dump, digest, timeStart, timeEnd, stderrText));
          }
      }
    }
  }
}
