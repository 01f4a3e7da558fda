/**
 * Query files: a text holding several SPARQL queries, each after the first starting with a
 * `PREFIX` line that follows a blank line. Every loader splits the text on "\n\nPREFIX",
 * gives the keyword back to every piece after the first and keys the pieces by their index.
 * experiment/experiment.py, chronomunica/experiment.py and chronomunica/benchmark.py also
 * strip each query and key it `<file URI>#<i>`; tool/benchmark.py keeps the text as split
 * and keys it `<stem>-<i>` (see ToolBenchmark).
 */
module QueryFiles {
  import opened Wrappers
  import opened Strings
  import opened Seqs
  import opened Dicts

  const Separator: string := "\n\nPREFIX"

  /** `f"{'PREFIX' if i > 0 else ''}{pieces[i]}"` for each piece of `text.split("\n\nPREFIX")`:
      a text with k separators holds k + 1 queries. */
  function QueryTexts(text: string): (r: seq<string>)
    ensures |r| == CountOccurrences(text, Separator) + 1
  {
    SplitCount(text, Separator);
    var pieces := Split(text, Separator);
    seq(|pieces|, i requires 0 <= i < |pieces| => (if i > 0 then "PREFIX" else "") + pieces[i])
  }

  /** The keyword given back to each piece of a tail of the split. */
  lemma {:induction false} JoinPrefixed(ps: seq<string>)
    requires |ps| >= 1
    ensures Join(seq(|ps|, i requires 0 <= i < |ps| => "PREFIX" + ps[i]), "\n\n") == "PREFIX" + Join(ps, Separator)
  {
    var qs := seq(|ps|, i requires 0 <= i < |ps| => "PREFIX" + ps[i]);
    if |ps| > 1 {
      var rest := ps[1..];
      var qrest := seq(|rest|, i requires 0 <= i < |rest| => "PREFIX" + rest[i]);
      assert qs[1..] == qrest;
      JoinPrefixed(rest);
      assert Join(qs, "\n\n") == qs[0] + "\n\n" + Join(qrest, "\n\n");
    }
  }

  /** The queries, joined again with the blank line that preceded each `PREFIX`, give back
      the file: nothing is lost or invented by the split. */
  lemma QueryTextsJoin(text: string)
    ensures Join(QueryTexts(text), "\n\n") == text
  {
    var pieces := Split(text, Separator);
    var qs := QueryTexts(text);
    JoinSplit(text, Separator);
    if |pieces| > 1 {
      var rest := pieces[1..];
      var qrest := seq(|rest|, i requires 0 <= i < |rest| => "PREFIX" + rest[i]);
      assert qs[1..] == qrest;
      JoinPrefixed(rest);
      assert Join(qs, "\n\n") == qs[0] + "\n\n" + Join(qrest, "\n\n");
      assert Join(pieces, Separator) == pieces[0] + Separator + Join(rest, Separator);
    }
  }

  /** The first query is the text before the first separator, unchanged. */
  lemma QueryTextsFirst(text: string)
    ensures StartsWith(text, QueryTexts(text)[0])
    ensures IndexOf(text, Separator).None? ==> QueryTexts(text) == [text]
    ensures IndexOf(text, Separator).Some? ==> IndexOf(text, Separator).value == |QueryTexts(text)[0]|
  {
    SplitFirstPiece(text, Separator);
    if IndexOf(text, Separator).None? {
      assert Split(text, Separator) == [text];
      var qs := QueryTexts(text);
      assert |qs| == 1;
      assert "" + text == text;
      assert qs[0] == text;
      assert qs == [text];
    }
  }

  /** The stripped queries of experiment/experiment.py, chronomunica/experiment.py and
      chronomunica/benchmark.py. */
  function StrippedQueries(text: string): (r: seq<string>)
    ensures |r| == CountOccurrences(text, Separator) + 1
  {
    Map(Strip, QueryTexts(text))
  }

  /** Each stripped query is the re-prefixed piece without surrounding white space. */
  lemma StrippedQueriesSpec(text: string)
    ensures forall i :: 0 <= i < |StrippedQueries(text)| ==>
      StrippedQueries(text)[i] == Strip(QueryTexts(text)[i]) && IsStripped(StrippedQueries(text)[i])
  {
    var qs := QueryTexts(text);
    MapIndex(Strip, qs);
    forall i | 0 <= i < |qs| ensures IsStripped(Strip(qs[i])) {
      StripSpec(qs[i]);
    }
  }

  /** `f"{base}#{i}"`: the id of query `i` of the file whose URI is `base`. */
  function QueryId(base: string, i: nat): string {
    base + "#" + NatToDecimal(i)
  }

  /** Queries of one file never share an id. */
  lemma QueryIdInjective(base: string, i: nat, j: nat)
    requires QueryId(base, i) == QueryId(base, j)
    ensures i == j
  {
    var a, b := QueryId(base, i), QueryId(base, j);
    assert a[|base| + 1..] == NatToDecimal(i);
    assert b[|base| + 1..] == NatToDecimal(j);
    NatToDecimalInjective(i, j);
  }

  /** The (id, query) pairs of one file, in file order. */
  function FileEntries(base: string, queries: seq<string>): (r: seq<(string, string)>)
    ensures |r| == |queries|
    ensures forall i :: 0 <= i < |r| ==> r[i] == (QueryId(base, i), queries[i])
  {
    seq(|queries|, i requires 0 <= i < |queries| => (QueryId(base, i), queries[i]))
  }

  /** The pairs of all files, file after file; a file is (its URI, its text) and `split`
      turns a text into its queries. */
  function QueryEntries(split: string -> seq<string>, files: seq<(string, string)>): seq<(string, string)> {
    if |files| == 0 then []
    else QueryEntries(split, files[..|files| - 1]) + FileEntries(files[|files| - 1].0, split(files[|files| - 1].1))
  }

  /** The dictionary the loops fill: `output[query_id] = query_string` for every pair. */
  function QueryDict(split: string -> seq<string>, files: seq<(string, string)>): Dict<string, string> {
    PutAll([], QueryEntries(split, files))
  }

  /** The ids of one file are pairwise distinct. */
  lemma FileEntriesDistinct(base: string, queries: seq<string>)
    ensures forall i, j :: 0 <= i < j < |FileEntries(base, queries)| ==>
      FileEntries(base, queries)[i].0 != FileEntries(base, queries)[j].0
  {
    var e := FileEntries(base, queries);
    forall i, j | 0 <= i < j < |e| ensures e[i].0 != e[j].0 {
      if e[i].0 == e[j].0 {
        QueryIdInjective(base, i, j);
      }
    }
  }

  /** One file loads as exactly one entry per query, in file order. */
  lemma SingleFileEntries(split: string -> seq<string>, base: string, text: string)
    ensures QueryDict(split, [(base, text)]) == FileEntries(base, split(text))
  {
    var files := [(base, text)];
    assert files[..0] == [];
    assert QueryEntries(split, files) == FileEntries(base, split(text));
    FileEntriesDistinct(base, split(text));
    PutAllFresh([], FileEntries(base, split(text)));
  }

  /** A file with k separators loads as k + 1 queries. */
  lemma SingleFileCount(base: string, text: string)
    ensures |QueryDict(StrippedQueries, [(base, text)])| == CountOccurrences(text, Separator) + 1
  {
    SingleFileEntries(StrippedQueries, base, text);
  }

  /** Each key holds the query of the last pair with that id: a file loaded later replaces
      the queries of an earlier file with the same URI. */
  lemma QueryDictLookup(split: string -> seq<string>, files: seq<(string, string)>, k: string)
    ensures Dicts.Valid(QueryDict(split, files))
    ensures Get(QueryDict(split, files), k) == LastValue(QueryEntries(split, files), k)
  {
    GetPutAll([], QueryEntries(split, files), k);
  }

  /** Every query of the last file is found under its own id. */
  lemma LastFileQueries(split: string -> seq<string>, files: seq<(string, string)>, i: nat)
    requires |files| > 0 && i < |split(files[|files| - 1].1)|
    ensures Get(QueryDict(split, files), QueryId(files[|files| - 1].0, i)) == Some(split(files[|files| - 1].1)[i])
  {
    var (base, text) := files[|files| - 1];
    var e := FileEntries(base, split(text));
    QueryDictLookup(split, files, QueryId(base, i));
    LastValueAppend(QueryEntries(split, files[..|files| - 1]), e, QueryId(base, i));
    FileEntriesDistinct(base, split(text));
    LastValueAt(e, i);
  }

  /** `load_queries` and the loading loops: every file in order, every query of a file in
      order, each put under its id. */
  method LoadQueries(files: seq<(string, string)>) returns (output: Dict<string, string>)
    ensures output == QueryDict(StrippedQueries, files)
  {
    output := LoadWith(StrippedQueries, files);
  }

  /** The loops, for any way of turning a text into its queries. */
  method LoadWith(split: string -> seq<string>, files: seq<(string, string)>) returns (output: Dict<string, string>)
    ensures output == QueryDict(split, files)
  {
    output := [];
    var f := 0;
    while f < |files|
      invariant f <= |files|
      invariant output == PutAll([], QueryEntries(split, files[..f]))
    {
      var (base, text) := files[f];
      assert files[..f + 1][..f] == files[..f];
      PutAllAppend([], QueryEntries(split, files[..f]), FileEntries(base, split(text)));
      output := PutFile(output, base, split(text));
      f := f + 1;
    }
    assert files[..f] == files;
  }

  /** The inner loop: the queries of one file, in order, each under its id. */
  method PutFile(d: Dict<string, string>, base: string, queries: seq<string>) returns (output: Dict<string, string>)
    ensures output == PutAll(d, FileEntries(base, queries))
  {
    output := d;
    var i := 0;
    while i < |queries|
      invariant i <= |queries|
      invariant output == PutAll(d, FileEntries(base, queries)[..i])
    {
      ghost var e := FileEntries(base, queries);
      assert e[..i + 1] == e[..i] + [(QueryId(base, i), queries[i])];
      PutAllSnoc(d, e[..i], (QueryId(base, i), queries[i]));
      output := Put(output, QueryId(base, i), queries[i]);
      i := i + 1;
    }
    assert FileEntries(base, queries)[..i] == FileEntries(base, queries);
  }
}
