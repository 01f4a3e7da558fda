/**
 * runner/queryengine.py: runs the engine on one query and sorts what it prints into
 * bindings and diagnostics on a `Result`.
 *
 * The child process is replaced by its observable behaviour: the stdout lines paired with
 * the elapsed nanoseconds at which each was read, the code `poll()` returned after the
 * read loop, and the stderr text. Clock readings are parameters.
 */
module RunnerQueryEngine {
  import opened Wrappers
  import opened Strings
  import opened Dicts
  import opened Timestamps
  import opened Seqs
  import opened ExperimentResult

  // ---------------------------------------------------------------- one stdout line

  /** `line.strip().removesuffix(",").removeprefix("[").strip()`. */
  function Normalise(line: string): string {
    Strip(RemovePrefix(RemoveSuffix(Strip(line), ","), "["))
  }

  /** A normalised line has no surrounding whitespace and is no longer than the line read. */
  lemma NormaliseStripped(line: string)
    ensures IsStripped(Normalise(line)) && |Normalise(line)| <= |line|
  {
    StripSpec(RemovePrefix(RemoveSuffix(Strip(line), ","), "["));
  }

  /** A line that is already clean passes through normalisation unchanged. */
  lemma NormaliseClean(line: string)
    requires IsStripped(line) && !EndsWith(line, ",") && !StartsWith(line, "[")
    ensures Normalise(line) == line
  {
    StripOfStripped(line);
  }

  /** The normalised line ends the read loop: it is non-empty and ends with `]`. */
  predicate Stops(line: string) {
    var n := Normalise(line);
    n != "" && EndsWith(n, "]")
  }

  /** The position of the last `c` in `s`. */
  function LastIndexOfChar(s: string, c: char): (r: Option<nat>)
    ensures r.Some? ==> r.value < |s| && s[r.value] == c
    ensures forall i :: (if r.Some? then r.value + 1 else 0) <= i < |s| ==> s[i] != c
  {
    if |s| == 0 then None
    else if s[|s| - 1] == c then Some(|s| - 1)
    else LastIndexOfChar(s[..|s| - 1], c)
  }

  /** The position of the first line break, or the length. */
  function LineEnd(s: string): (n: nat)
    ensures n <= |s| && (n < |s| ==> s[n] == '\n')
    ensures forall i :: 0 <= i < n ==> s[i] != '\n'
  {
    if |s| == 0 || s[0] == '\n' then 0 else 1 + LineEnd(s[1..])
  }

  /** `RESULT_PATTERN.match(line).group("result")` for the pattern `(?P<result>{.*})`: anchored at
      the start, `.` stops at a line break and is greedy, so the match runs from the leading `{`
      to the last `}` before the first line break. */
  function ResultMatch(line: string): (r: Option<string>)
    ensures r.Some? ==> |r.value| >= 2 && r.value[0] == '{' && r.value[|r.value| - 1] == '}'
    ensures r.Some? ==> StartsWith(line, r.value)
  {
    if |line| > 0 && line[0] == '{' then
      var head := line[..LineEnd(line)];
      match LastIndexOfChar(head, '}')
      case Some(k) => if k >= 1 then Some(line[..k + 1]) else None
      case None => None
    else None
  }

  /** The texts a normalised, non-empty line hands to `add_result`, in order. */
  function Classify(n: string): (r: seq<string>)
    ensures 1 <= |r| <= 2
    ensures forall i :: 0 <= i < |r| ==> r[i] != ""
    requires n != ""
  {
    match ResultMatch(n)
    case None => [n]
    case Some(q) =>
      var rest := Strip(ReplaceAll(n, q, ""));
      if rest == "" then [q] else [q, rest]
  }

  /** The texts one stdout line hands to `add_result`: none for a blank line. */
  function LineAdds(line: string): (r: seq<string>)
    ensures |r| == 0 <==> Normalise(line) == ""
    ensures |r| <= 2
    ensures forall i :: 0 <= i < |r| ==> r[i] != ""
  {
    var n := Normalise(line);
    if n == "" then [] else Classify(n)
  }

  /** `replace` removes just the matched prefix when the rest holds no `}`. */
  lemma ReplaceRemovesMatchOnly(n: string, q: string)
    requires |q| > 0 && StartsWith(n, q) && q[|q| - 1] == '}'
    requires forall i :: |q| <= i < |n| ==> n[i] != '}'
    ensures ReplaceAll(n, q, "") == n[|q|..]
  {
    var tail := n[|q|..];
    assert forall i :: 0 <= i < |tail| ==> !OccursAt(tail, q, i);
    IndexOfLeftmost(tail, q);
    ReplaceAllAbsent(tail, q, "");
    assert n == q + tail;
  }

  /** On a line without a line break the match runs to the last `}`. */
  lemma ResultMatchToLastBrace(n: string)
    requires ResultMatch(n).Some? && LineEnd(n) == |n|
    ensures forall i :: |ResultMatch(n).value| <= i < |n| ==> n[i] != '}'
  {
    assert n[..LineEnd(n)] == n;
  }

  /** When the line has no inner line break, `replace` removes just the match, so the calls are
      the match and then, if anything is left, the stripped rest of the line. */
  lemma ClassifySplit(n: string)
    requires n != "" && ResultMatch(n).Some? && LineEnd(n) == |n|
    ensures var q := ResultMatch(n).value;
      Classify(n) == (if Strip(n[|q|..]) == "" then [q] else [q, Strip(n[|q|..])])
  {
    ResultMatchToLastBrace(n);
    ReplaceRemovesMatchOnly(n, ResultMatch(n).value);
  }

  /** The line is the match, some whitespace and the rest. */
  lemma MatchRestDecomposes(n: string)
    requires IsStripped(n) && ResultMatch(n).Some?
    ensures var q := ResultMatch(n).value;
      exists w :: AllSpace(w) && n == q + w + Strip(n[|q|..])
  {
    var q := ResultMatch(n).value;
    StrippedSplitsAt(n, |q|);
    assert n[..|q|] == q;
  }

  // ---------------------------------------------------------------- the whole output

  /** The number of lines read before the first one that stops the loop. */
  function FirstStop(lines: seq<(int, string)>): (n: nat)
    ensures n <= |lines|
    ensures forall k :: 0 <= k < n ==> !Stops(lines[k].1)
    ensures n < |lines| ==> Stops(lines[n].1)
  {
    FirstWhere((l: (int, string)) => Stops(l.1), lines)
  }

  /** The texts paired with one elapsed key. */
  function Keyed(t: int, texts: seq<string>): (r: seq<(int, string)>)
    ensures |r| == |texts| && forall i :: 0 <= i < |r| ==> r[i] == (t, texts[i])
  {
    seq(|texts|, i requires 0 <= i < |texts| => (t, texts[i]))
  }

  /** Every `add_result` call the lines make, with its elapsed key, in order. */
  function AddsOf(lines: seq<(int, string)>): seq<(int, string)> {
    if |lines| == 0 then []
    else AddsOf(lines[..|lines| - 1]) + Keyed(lines[|lines| - 1].0, LineAdds(lines[|lines| - 1].1))
  }

  /** The calls made before the read loop stops. */
  function Recorded(lines: seq<(int, string)>): seq<(int, string)> {
    AddsOf(lines[..FirstStop(lines)])
  }

  /** Lines after a stopping line do not move the first one. */
  lemma FirstStopAppend(lines: seq<(int, string)>, k: nat, more: seq<(int, string)>)
    requires k < |lines| && Stops(lines[k].1)
    ensures FirstStop(lines + more) == FirstStop(lines)
  {
    FirstWhereAppend((l: (int, string)) => Stops(l.1), lines, k, more);
  }

  /** Nothing after the stopping line is ever recorded. */
  lemma NothingAfterStop(lines: seq<(int, string)>, k: nat, more: seq<(int, string)>)
    requires k < |lines| && Stops(lines[k].1)
    ensures Recorded(lines + more) == Recorded(lines)
  {
    FirstStopAppend(lines, k, more);
    var m := FirstStop(lines);
    assert (lines + more)[..m] == lines[..m];
  }

  /** Reading one more line adds that line's calls, and a blank line adds none. */
  lemma AddsOfStep(lines: seq<(int, string)>, i: nat)
    requires i < |lines|
    ensures AddsOf(lines[..i + 1]) == AddsOf(lines[..i]) + Keyed(lines[i].0, LineAdds(lines[i].1))
    ensures Normalise(lines[i].1) == "" ==> AddsOf(lines[..i + 1]) == AddsOf(lines[..i])
  {
    assert lines[..i + 1][..i] == lines[..i];
  }

  /** `returncode and returncode != 1`: the timeout flag. */
  predicate TimedOut(returnCode: Option<int>) {
    match returnCode
    case None => false
    case Some(c) => c != 0 && c != 1
  }

  /** `{**self.env, "COMUNICA_CONFIG": config_path}`. */
  function ChildEnv(env: Dict<string, string>, configPath: string): (r: Dict<string, string>)
  {
    Put(env, "COMUNICA_CONFIG", configPath)
  }

  /** The child always sees the config path under `COMUNICA_CONFIG`, and every other variable as configured. */
  lemma ChildEnvOverrides(env: Dict<string, string>, configPath: string, name: string)
    requires Dicts.Valid(env)
    ensures Dicts.Valid(ChildEnv(env, configPath))
    ensures Get(ChildEnv(env, configPath), name) == if name == "COMUNICA_CONFIG" then Some(configPath) else Get(env, name)
  {
    GetPut(env, "COMUNICA_CONFIG", configPath, name);
  }

  /** `self.context`: the serialised context, kept only when one was configured and it is not empty. */
  function ContextText<J>(context: Option<Dict<string, J>>, dumpContext: Dict<string, J> -> string): (r: Option<string>)
    ensures r.Some? <==> context.Some? && |context.value| > 0
  {
    match context
    case Some(c) => if |c| > 0 then Some(dumpContext(c)) else None
    case None => None
  }

  /** The engine's command line: `--context` follows the query only when the stored context is non-empty text. */
  function Arguments(node: string, bin: string, queryString: string, context: Option<string>): (r: seq<string>)
    ensures |r| == 4 || |r| == 6
    ensures r[..4] == [node, bin, "--query", queryString]
    ensures |r| == 6 <==> context.Some? && context.value != ""
    ensures |r| == 6 ==> r[4..] == ["--context", context.value]
  {
    var base := [node, bin, "--query", queryString];
    match context
    case Some(c) => if c != "" then base + ["--context", c] else base
    case None => base
  }

  /** The body of the read loop for one normalised, non-empty line: the match, if any, and then
      what is left of the line once the match is removed and the rest stripped. */
  method RecordLine<J>(result: Result<int, J>, parse: string -> Option<J>, nsLine: int, line: string)
    requires line != "" && result.Valid()
    modifies result
    ensures result.Valid()
    ensures (result.results, result.other) == AddAll(parse, old(result.results), old(result.other), Keyed(nsLine, Classify(line)))
    ensures result.State() == old(result.State()).(results := result.results, other := result.other)
  {
    ghost var (r0, o0) := (result.results, result.other);
    AddAllPair(parse, r0, o0, nsLine, line, line);
    var rest := line;
    match ResultMatch(line) {
      case Some(queryResult) =>
        result.AddResult(parse, nsLine, queryResult);
        rest := Strip(ReplaceAll(line, queryResult, ""));
        AddAllPair(parse, r0, o0, nsLine, queryResult, rest);
      case None =>
    }
    if rest != "" {
      result.AddResult(parse, nsLine, rest);
    }
  }

  /** The read loop of `query_bindings` on a record that holds no results yet: every line up to the
      first one that ends the output is normalised and recorded. */
  method ReadOutput<J>(result: Result<int, J>, parse: string -> Option<J>, lines: seq<(int, string)>)
    requires result.Valid() && result.results == [] && result.other == []
    modifies result
    ensures result.Valid()
    ensures (result.results, result.other) == AddAll(parse, [], [], Recorded(lines))
    ensures result.State() == old(result.State()).(results := result.results, other := result.other)
  {
    var i := 0;
    var stop := false;
    while i < |lines| && !stop
      invariant 0 <= i <= FirstStop(lines) && (stop ==> i == FirstStop(lines))
      invariant result.Valid()
      invariant (result.results, result.other) == AddAll(parse, [], [], AddsOf(lines[..i]))
      invariant result.State() == old(result.State()).(results := result.results, other := result.other)
      decreases |lines| - i, !stop
    {
      stop := ReadLine(result, parse, lines, i);
      if !stop {
        i := i + 1;
      }
    }
  }

  /** One pass of the read loop: a line that ends the output stops it, any other line is
      normalised and recorded. */
  method ReadLine<J>(result: Result<int, J>, parse: string -> Option<J>, lines: seq<(int, string)>, i: nat) returns (stop: bool)
    requires i < |lines| && result.Valid()
    requires (result.results, result.other) == AddAll(parse, [], [], AddsOf(lines[..i]))
    modifies result
    ensures result.Valid() && stop == Stops(lines[i].1)
    ensures (result.results, result.other) == if stop then old((result.results, result.other)) else AddAll(parse, [], [], AddsOf(lines[..i + 1]))
    ensures result.State() == old(result.State()).(results := result.results, other := result.other)
  {
    var (nsLine, raw) := lines[i];
    var line := Normalise(raw);
    AddsOfStep(lines, i);
    stop := line != "" && EndsWith(line, "]");
    if line != "" && !stop {
      RecordLine(result, parse, nsLine, line);
      AddAllAppend(parse, [], [], AddsOf(lines[..i]), Keyed(nsLine, LineAdds(raw)));
    }
  }

  class QueryEngine<J> {
    var cwd: string
    var bin: string
    var node: string
    var env: Dict<string, string>
    var context: Option<string>

    constructor(cwd: string, bin: string, node: string, env: Dict<string, string>,
                context: Option<Dict<string, J>>, dumpContext: Dict<string, J> -> string)
      ensures this.cwd == cwd && this.bin == bin && this.node == node && this.env == env
      ensures this.context == ContextText(context, dumpContext)
    {
      this.cwd := cwd;
      this.bin := bin;
      this.node := node;
      this.env := env;
      this.context := ContextText(context, dumpContext);
    }

    /** `query_bindings`: runs the engine and returns the filled record together with the
        command line, the environment and the process steps taken. */
    method QueryBindings(queryId: string, queryString: string, configPath: string,
                         parse: string -> Option<J>, clockBegin: DateTime, clockEnd: DateTime,
                         lines: seq<(int, string)>, returnCode: Option<int>, stderrText: string)
      returns (result: Result<int, J>, args: seq<string>, childEnv: Dict<string, string>)
      ensures fresh(result) && result.Valid()
      ensures (result.results, result.other) == AddAll(parse, [], [], Recorded(lines))
      ensures result.config == configPath && result.query == queryId && result.urls == []
      ensures result.timeBegin == Some(clockBegin) && result.timeEnd == Some(clockEnd)
      ensures result.timeout == TimedOut(returnCode)
      ensures result.stderr == Some(stderrText)
      ensures args == Arguments(node, bin, queryString, context)
      ensures childEnv == ChildEnv(env, configPath)
    {
      result := new Result(configPath, queryId);
      args := Arguments(node, bin, queryString, context);
      result.Begin(clockBegin);
      childEnv := ChildEnv(env, configPath);

      ReadOutput(result, parse, lines);
      ghost var added := AddAll(parse, [], [], Recorded(lines));
      assert result.State() == ResultState(configPath, queryId, added.0, added.1, [], None, false, Some(clockBegin), None);

      result.End(clockEnd);
      if TimedOut(returnCode) {
        result.timeout := true;
      }
      result.stderr := Some(stderrText);
      assert result.State() == ResultState(configPath, queryId, added.0, added.1, [], Some(stderrText), TimedOut(returnCode),
                                           Some(clockBegin), Some(clockEnd));
    }
  }
}
