/**
 * processing/diefficiency.py: the per-(config, query) summary of a Chronomunica result
 * file (`ChronomunicaResult`), the loader that builds one summary per pair and drops those
 * whose construction raises (`ChronomunicaResults`), the merge of arrival-time lists
 * (`average_lists`), the display ids derived from config and query URIs, and the sizes of
 * the plot grid.
 *
 * The JSON document comes in as nested association lists; a repetition record says which
 * of its keys are present. A URI comes in already split into its path and fragment.
 */
module Diefficiency {
  import opened Wrappers
  import opened Strings
  import opened Seqs

  /** Arrival times are recorded in nanoseconds. */
  const TimeDivisor: nat := 1000000000

  /** `int(k) / TIME_DIVISOR`: a nanosecond key in seconds. */
  function Seconds(nanos: int): real {
    nanos as real / TimeDivisor as real
  }

  /** The keys of one repetition's `result_bindings` or `other_output`, in seconds. */
  function Times(keys: seq<int>): (r: seq<real>)
    ensures |r| == |keys|
  {
    seq(|keys|, i requires 0 <= i < |keys| => Seconds(keys[i]))
  }

  /** Python `max(x, y)` on numbers. */
  function Max(x: real, y: real): real {
    if y > x then y else x
  }

  function Longer<T>(a: seq<T>, b: seq<T>): nat {
    if |a| >= |b| then |a| else |b|
  }

  // ---------------------------------------------------------------- average_lists

  /** Entry i of `a` once `average_lists(a, b)` is done. Below both lengths the loop takes
      the largest of b[i], the midpoint, the old a[i] and the entry before it (itself at
      i = 0); past `b` the entry stays; past `a` the larger of b[i] and the entry before it
      (-1 when there is none) is appended. */
  function MergedAt(a: seq<real>, b: seq<real>, i: nat): real
    requires i < |a| || i < |b|
    decreases i
  {
    if i < |a| && i < |b| then
      var prev := if i > 0 then MergedAt(a, b, i - 1) else a[i];
      Max(Max(b[i], (a[i] + b[i]) / 2.0), Max(a[i], prev))
    else if i < |a| then a[i]
    else Max(b[i], if i > 0 then MergedAt(a, b, i - 1) else -1.0)
  }

  /** The list `average_lists(a, b)` returns. */
  function Merged(a: seq<real>, b: seq<real>): (r: seq<real>)
    ensures |r| == Longer(a, b)
  {
    seq(Longer(a, b), i requires 0 <= i < Longer(a, b) => MergedAt(a, b, i))
  }

  /** One step of the first loop of `average_lists`. */
  lemma MergedAtCommon(a: seq<real>, b: seq<real>, i: nat, prev: real)
    requires i < |a| && i < |b|
    requires prev == if i > 0 then MergedAt(a, b, i - 1) else a[i]
    ensures MergedAt(a, b, i) == Max(Max(b[i], (a[i] + b[i]) / 2.0), Max(a[i], prev))
  {
  }

  /** One step of the second loop of `average_lists`. */
  lemma MergedAtAppended(a: seq<real>, b: seq<real>, i: nat, last: real)
    requires |a| <= i < |b|
    requires last == if i > 0 then MergedAt(a, b, i - 1) else -1.0
    ensures MergedAt(a, b, i) == Max(b[i], last)
  {
  }

  /** `average_lists`: `a` is updated in place over the common length while `b` is popped
      from the front, then the rest of `b` is appended; `b` ends empty. */
  method AverageLists(a: seq<real>, b: seq<real>) returns (merged: seq<real>, rest: seq<real>)
    ensures merged == Merged(a, b)
    ensures rest == []
  {
    merged, rest := AverageCommon(a, b);
    merged, rest := AppendRest(a, b, merged, rest);
  }

  /** The first loop of `average_lists`: over the common length, b[i] is popped and a[i]
      becomes the largest of it, the midpoint, a[i] and the entry before. */
  method AverageCommon(a: seq<real>, b: seq<real>) returns (merged: seq<real>, rest: seq<real>)
    ensures |merged| == |a|
    ensures forall j :: 0 <= j < |a| ==> merged[j] == MergedAt(a, b, j)
    ensures rest == b[if |a| <= |b| then |a| else |b|..]
  {
    merged, rest := a, b;
    var existing := if |a| <= |b| then |a| else |b|;
    for i := 0 to existing
      invariant |merged| == |a| && rest == b[i..]
      invariant forall j :: 0 <= j < i ==> merged[j] == MergedAt(a, b, j)
      invariant forall j :: i <= j < |a| ==> merged[j] == a[j]
    {
      var newValue := rest[0];
      rest := rest[1..];
      var prevValue := if i > 0 then merged[i - 1] else merged[i];
      MergedAtCommon(a, b, i, prevValue);
      merged := merged[i := Max(Max(newValue, (merged[i] + newValue) / 2.0), Max(merged[i], prevValue))];
    }
  }

  /** The second loop of `average_lists`: what is left of `b` is appended, each entry no
      smaller than the one before it. */
  method AppendRest(ghost a: seq<real>, ghost b: seq<real>, merged0: seq<real>, rest0: seq<real>) returns (merged: seq<real>, rest: seq<real>)
    requires |merged0| == |a|
    requires forall j :: 0 <= j < |a| ==> merged0[j] == MergedAt(a, b, j)
    requires rest0 == b[if |a| <= |b| then |a| else |b|..]
    ensures merged == Merged(a, b) && rest == []
  {
    merged, rest := merged0, rest0;
    while |rest| > 0
      invariant |a| <= |merged| <= Longer(a, b)
      invariant rest == b[if |merged| <= |b| then |merged| else |b|..]
      invariant forall j :: 0 <= j < |merged| ==> merged[j] == MergedAt(a, b, j)
      decreases |rest|
    {
      var lastValue := if |merged| > 0 then merged[|merged| - 1] else -1.0;
      MergedAtAppended(a, b, |merged|, lastValue);
      merged := merged + [Max(rest[0], lastValue)];
      rest := rest[1..];
    }
  }

  /** The midpoint never wins: below both lengths the new entry is the largest of b[i], the
      old a[i] and the entry before it. */
  lemma MergedMidpoint(a: seq<real>, b: seq<real>, i: nat)
    requires i < |a| && i < |b|
    ensures MergedAt(a, b, i) == Max(b[i], Max(a[i], if i > 0 then MergedAt(a, b, i - 1) else a[i]))
  {
  }

  /** Entries of `a` past the end of `b` are left as they were. */
  lemma MergedBeyond(a: seq<real>, b: seq<real>, i: nat)
    requires |b| <= i < |a|
    ensures Merged(a, b)[i] == a[i]
  {
  }

  /** Within the length of `b`, every entry is at least the one before it. */
  lemma MergedStep(a: seq<real>, b: seq<real>, i: nat)
    requires 0 < i < |b|
    ensures MergedAt(a, b, i - 1) <= MergedAt(a, b, i)
  {
  }

  lemma {:induction false} MergedChain(a: seq<real>, b: seq<real>, i: nat, j: nat)
    requires i <= j < |b|
    ensures MergedAt(a, b, i) <= MergedAt(a, b, j)
    decreases j - i
  {
    if i < j {
      MergedChain(a, b, i, j - 1);
      MergedStep(a, b, j);
    }
  }

  predicate NonDecreasing(s: seq<real>) {
    forall i, j :: 0 <= i <= j < |s| ==> s[i] <= s[j]
  }

  /** When `a` is no longer than `b` (in particular when it is empty), the merge is
      non-decreasing. */
  lemma MergedNonDecreasing(a: seq<real>, b: seq<real>)
    requires |a| <= |b|
    ensures NonDecreasing(Merged(a, b))
  {
    forall i, j | 0 <= i <= j < |Merged(a, b)| ensures Merged(a, b)[i] <= Merged(a, b)[j] {
      MergedChain(a, b, i, j);
    }
  }

  /** v is one of the first i + 1 entries of `a` or of `b`, or the -1 a merge into an empty
      list starts from. */
  predicate Attained(a: seq<real>, b: seq<real>, i: nat, v: real) {
    (exists j :: 0 <= j <= i && j < |a| && a[j] == v)
    || (exists j :: 0 <= j <= i && j < |b| && b[j] == v)
    || (|a| == 0 && v == -1.0)
  }

  /** Within the length of `b`, entry i of the merge is the running maximum of both lists
      up to i: no smaller than any of their entries and equal to one of them. */
  lemma {:induction false} MergedRunningMax(a: seq<real>, b: seq<real>, i: nat)
    requires i < |b|
    ensures forall j :: 0 <= j <= i && j < |a| ==> a[j] <= MergedAt(a, b, i)
    ensures forall j :: 0 <= j <= i ==> b[j] <= MergedAt(a, b, i)
    ensures Attained(a, b, i, MergedAt(a, b, i))
    decreases i
  {
    var v := MergedAt(a, b, i);
    if i > 0 {
      MergedRunningMax(a, b, i - 1);
      var p := MergedAt(a, b, i - 1);
      if i < |a| {
        MergedMidpoint(a, b, i);
      }
      assert v == p || v == b[i] || (i < |a| && v == a[i]);
      if v == p {
        if j :| 0 <= j <= i - 1 && j < |a| && a[j] == p {
          assert 0 <= j <= i && j < |a| && a[j] == v;
        } else if j :| 0 <= j <= i - 1 && j < |b| && b[j] == p {
          assert 0 <= j <= i && j < |b| && b[j] == v;
        }
      }
    } else if |a| > 0 {
      MergedMidpoint(a, b, 0);
      assert v == b[0] || v == a[0];
    }
  }

  // ---------------------------------------------------------------- ids

  /** A URI as `urlparse` splits it: the path and the fragment. */
  datatype Uri = Uri(path: string, fragment: string)

  /** `config_uri_to_id`: the last path segment without ".json", dashes as spaces, without
      the "config default " prefix, capitalised. */
  function ConfigId(path: string): string {
    Capitalize(RemovePrefix(ReplaceAll(RemoveSuffix(LastPiece(path, "/"), ".json"), "-", " "), "config default "))
  }

  /** The part of `query_uri_to_id` before the fragment: the dash-separated words of the
      last path segment without ".sparql", each capitalised, joined with spaces. */
  function QueryBase(path: string): string {
    Join(Map(Capitalize, Split(RemoveSuffix(LastPiece(path, "/"), ".sparql"), "-")), " ")
  }

  /** `query_uri_to_id`. */
  function QueryId(path: string, fragment: string): string {
    QueryBase(path) + "." + fragment
  }

  /** Only the last segment of a config path matters: the same file name under two
      directories gives the same id. */
  lemma ConfigIdLastSegment(dir: string, name: string)
    ensures ConfigId(dir + "/" + name) == ConfigId(name)
  {
    LastPieceAfter(dir, '/', name);
    assert dir + "/" + name == dir + ['/'] + name;
  }

  /** Only the last segment of a query path matters. */
  lemma QueryIdLastSegment(dir: string, name: string, fragment: string)
    ensures QueryId(dir + "/" + name, fragment) == QueryId(name, fragment)
  {
    LastPieceAfter(dir, '/', name);
    assert dir + "/" + name == dir + ['/'] + name;
  }

  /** A config id holds no dash. */
  lemma ConfigIdNoDash(path: string)
    ensures '-' !in ConfigId(path)
  {
    var replaced := ReplaceAll(RemoveSuffix(LastPiece(path, "/"), ".json"), "-", " ");
    ReplaceCharRemoves(RemoveSuffix(LastPiece(path, "/"), ".json"), '-', ' ');
    var trimmed := RemovePrefix(replaced, "config default ");
    assert '-' !in trimmed by {
      if StartsWith(replaced, "config default ") {
        assert forall k :: 0 <= k < |trimmed| ==> trimmed[k] == replaced[k + 15];
      }
    }
    CapitalizeFree(trimmed, '-');
  }

  /** The query id is its dash-free base, a dot, and the URI's fragment; two queries of the
      same file differ exactly in their fragments. */
  lemma QueryIdShape(path: string, fragment: string)
    ensures '-' !in QueryBase(path)
    ensures EndsWith(QueryId(path, fragment), "." + fragment)
    ensures forall f :: QueryId(path, f) == QueryId(path, fragment) <==> f == fragment
  {
    var pieces := Split(RemoveSuffix(LastPiece(path, "/"), ".sparql"), "-");
    SplitPiecesFree(RemoveSuffix(LastPiece(path, "/"), ".sparql"), '-');
    var words := Map(Capitalize, pieces);
    MapIndex(Capitalize, pieces);
    forall k | 0 <= k < |words| ensures '-' !in words[k] {
      CapitalizeFree(pieces[k], '-');
    }
    JoinFree(words, " ", '-');
    var id := QueryId(path, fragment);
    assert id[|id| - |"." + fragment|..] == "." + fragment;
    forall f | QueryId(path, f) == id ensures f == fragment {
      var base := QueryBase(path);
      assert QueryId(path, f)[|base| + 1..] == f;
      assert id[|base| + 1..] == fragment;
    }
  }

  // ---------------------------------------------------------------- ChronomunicaResult

  /** One repetition record: each field is None when its key is absent. The binding and
      other-output maps are given by their nanosecond keys, in order. */
  datatype Rep = Rep(resultHash: Option<string>, resultCount: Option<int>, resultBindings: Option<seq<int>>, otherOutput: Option<seq<int>>)

  /** The fields of a constructed `ChronomunicaResult`. */
  datatype Summary = Summary(config: string, query: string, resultHash: Option<string>, resultCount: int,
                             resultTimes: seq<real>, otherTimes: seq<real>, maxTime: real)

  /** The fields the loop over the repetitions updates. */
  datatype Acc = Acc(hash: Option<string>, count: int, result: seq<real>, other: seq<real>)

  /** Python truthiness of the stored hash: present and non-empty. */
  predicate Truthy(h: Option<string>) {
    h.Some? && |h.value| > 0
  }

  /** Merging one repetition's times: other output and result bindings when present. */
  function Absorb(acc: Acc, rep: Rep): Acc {
    var other := if rep.otherOutput.Some? then Merged(acc.other, Times(rep.otherOutput.value)) else acc.other;
    var result := if rep.resultBindings.Some? then Merged(acc.result, Times(rep.resultBindings.value)) else acc.result;
    Acc(acc.hash, acc.count, result, other)
  }

  /** One iteration of the constructor's loop: the first repetition with a hash while none
      is stored sets hash and count; later ones must carry the same hash. */
  function Step(query: string, config: string, acc: Acc, rep: Rep): Outcome<Acc> {
    if !Truthy(acc.hash) then
      if rep.resultHash.None? then Err("KeyError: 'result_hash'")
      else if rep.resultCount.None? then Err("KeyError: 'result_count'")
      else Ok(Absorb(Acc(rep.resultHash, rep.resultCount.value, acc.result, acc.other), rep))
    else if rep.resultHash.None? then Err("KeyError: 'result_hash'")
    else if rep.resultHash != acc.hash then Err("AssertionError: Inconsistent results for " + query + " with " + config)
    else Ok(Absorb(acc, rep))
  }

  /** The loop over the repetitions; the first error ends it. */
  function Fold(query: string, config: string, reps: seq<Rep>): Outcome<Acc> {
    if |reps| == 0 then Ok(Acc(None, 0, [], []))
    else
      match Fold(query, config, reps[..|reps| - 1])
      case Err(e) => Err(e)
      case Ok(acc) => Step(query, config, acc, reps[|reps| - 1])
  }

  /** `max_time`: the larger of the last result time and the last other time, 0 for an
      empty list. */
  function MaxTime(result: seq<real>, other: seq<real>): (m: real)
    ensures (|result| == 0 || |other| == 0) ==> m >= 0.0
    ensures |result| > 0 ==> result[|result| - 1] <= m
    ensures |other| > 0 ==> other[|other| - 1] <= m
    ensures m == 0.0 || (|result| > 0 && m == result[|result| - 1]) || (|other| > 0 && m == other[|other| - 1])
  {
    Max(if |result| > 0 then result[|result| - 1] else 0.0, if |other| > 0 then other[|other| - 1] else 0.0)
  }

  /** `ChronomunicaResult(config, query, data)`: the summary, or the error it raises. */
  function Build(config: Uri, query: Uri, reps: seq<Rep>): Outcome<Summary> {
    var configId := ConfigId(config.path);
    var queryId := QueryId(query.path, query.fragment);
    match Fold(queryId, configId, reps)
    case Err(e) => Err(e)
    case Ok(acc) => Ok(Summary(configId, queryId, acc.hash, acc.count, acc.result, acc.other, MaxTime(acc.result, acc.other)))
  }

  /** An error stops the fold for good. */
  lemma {:induction false} FoldErrSticks(query: string, config: string, reps: seq<Rep>, i: nat)
    requires i <= |reps| && Fold(query, config, reps[..i]).Err?
    ensures Fold(query, config, reps) == Fold(query, config, reps[..i])
    decreases |reps| - i
  {
    if i < |reps| {
      assert reps[..i + 1][..i] == reps[..i];
      FoldErrSticks(query, config, reps, i + 1);
    } else {
      assert reps[..i] == reps;
    }
  }

  /** The constructor as the loop it is. */
  method NewResult(config: Uri, query: Uri, data: seq<Rep>) returns (r: Outcome<Summary>)
    ensures r == Build(config, query, data)
  {
    var configId := ConfigId(config.path);
    var queryId := QueryId(query.path, query.fragment);
    var hash: Option<string> := None;
    var count := 0;
    var otherTimes: seq<real> := [];
    var resultTimes: seq<real> := [];
    for i := 0 to |data|
      invariant Fold(queryId, configId, data[..i]) == Ok(Acc(hash, count, resultTimes, otherTimes))
    {
      var rep := data[i];
      assert data[..i + 1][..i] == data[..i];
      if !Truthy(hash) {
        if rep.resultHash.None? || rep.resultCount.None? {
          r := Err(if rep.resultHash.None? then "KeyError: 'result_hash'" else "KeyError: 'result_count'");
          FoldErrSticks(queryId, configId, data, i + 1);
          return;
        }
        hash := rep.resultHash;
        count := rep.resultCount.value;
      } else if rep.resultHash.None? || rep.resultHash != hash {
        r := Err(if rep.resultHash.None? then "KeyError: 'result_hash'" else "AssertionError: Inconsistent results for " + queryId + " with " + configId);
        FoldErrSticks(queryId, configId, data, i + 1);
        return;
      }
      if rep.otherOutput.Some? {
        var rest;
        otherTimes, rest := AverageLists(otherTimes, Times(rep.otherOutput.value));
      }
      if rep.resultBindings.Some? {
        var rest;
        resultTimes, rest := AverageLists(resultTimes, Times(rep.resultBindings.value));
      }
    }
    assert data[..|data|] == data;
    r := Ok(Summary(configId, queryId, hash, count, resultTimes, otherTimes, MaxTime(resultTimes, otherTimes)));
  }

  /** No repetition before index i carries a non-empty hash. */
  predicate NoTruthyBefore(reps: seq<Rep>, i: nat) {
    forall k :: 0 <= k < i && k < |reps| ==> !Truthy(reps[k].resultHash)
  }

  /** Every repetition has a `result_hash` key, and every one read before a non-empty hash
      was seen has a `result_count` key. */
  predicate KeysPresent(reps: seq<Rep>) {
    forall i :: 0 <= i < |reps| ==> reps[i].resultHash.Some? && (NoTruthyBefore(reps, i) ==> reps[i].resultCount.Some?)
  }

  /** Every repetition after one with a non-empty hash carries that same hash. */
  predicate Agreeing(reps: seq<Rep>) {
    forall i, j :: 0 <= i < j < |reps| && Truthy(reps[i].resultHash) ==> reps[j].resultHash == reps[i].resultHash
  }

  /** Repetition k is the one hash and count were taken from: the first with a non-empty
      hash, or the last when none has one. */
  predicate Source(reps: seq<Rep>, acc: Acc, k: nat) {
    k < |reps| && acc.hash == reps[k].resultHash && Some(acc.count) == reps[k].resultCount
    && NoTruthyBefore(reps, k) && (Truthy(reps[k].resultHash) || k == |reps| - 1)
  }

  ghost predicate HashFromSource(reps: seq<Rep>, acc: Acc) {
    if |reps| == 0 then acc.hash == None && acc.count == 0 else exists k :: Source(reps, acc, k)
  }

  /** What the source index says about the stored hash. */
  lemma SourceFacts(p: seq<Rep>, acc: Acc)
    requires HashFromSource(p, acc) && Agreeing(p)
    ensures Truthy(acc.hash) <==> !NoTruthyBefore(p, |p|)
    ensures forall i :: 0 <= i < |p| && Truthy(p[i].resultHash) ==> p[i].resultHash == acc.hash
  {
    if |p| > 0 {
      var k: nat :| Source(p, acc, k);
      forall i | 0 <= i < |p| && Truthy(p[i].resultHash) ensures p[i].resultHash == acc.hash {
        assert k <= i;
      }
    }
  }

  lemma KeysPresentSnoc(p: seq<Rep>, r: Rep)
    ensures KeysPresent(p + [r]) <==> KeysPresent(p) && r.resultHash.Some? && (NoTruthyBefore(p, |p|) ==> r.resultCount.Some?)
  {
    var rs := p + [r];
    assert forall i :: 0 <= i < |p| ==> rs[i] == p[i];
    assert rs[|p|] == r;
    assert forall i :: 0 <= i <= |p| ==> (NoTruthyBefore(rs, i) <==> NoTruthyBefore(p, i));
  }

  lemma AgreeingSnoc(p: seq<Rep>, r: Rep)
    ensures Agreeing(p + [r]) <==> Agreeing(p) && forall i :: 0 <= i < |p| && Truthy(p[i].resultHash) ==> r.resultHash == p[i].resultHash
  {
    var rs := p + [r];
    assert forall i :: 0 <= i < |p| ==> rs[i] == p[i];
    assert rs[|p|] == r;
  }

  /** The source index carries over to one repetition more. */
  lemma SourceSnoc(p: seq<Rep>, acc: Acc, r: Rep, acc': Acc)
    requires HashFromSource(p, acc) && Agreeing(p)
    requires r.resultHash.Some? && (!Truthy(acc.hash) ==> r.resultCount.Some?)
    requires acc'.hash == (if Truthy(acc.hash) then acc.hash else r.resultHash)
    requires acc'.count == (if Truthy(acc.hash) then acc.count else r.resultCount.value)
    ensures HashFromSource(p + [r], acc')
  {
    var rs := p + [r];
    assert forall i :: 0 <= i < |p| ==> rs[i] == p[i];
    SourceFacts(p, acc);
    if Truthy(acc.hash) {
      var k: nat :| Source(p, acc, k);
      assert Source(rs, acc', k);
    } else {
      assert Source(rs, acc', |p|);
    }
  }

  /** One step succeeds exactly when the repetition has the keys it needs and, once a hash
      is stored, carries that hash; hash and count are taken only while none is stored. */
  lemma StepOkIff(query: string, config: string, acc: Acc, r: Rep)
    ensures Step(query, config, acc, r).Ok? <==>
      r.resultHash.Some? && (!Truthy(acc.hash) ==> r.resultCount.Some?) && (Truthy(acc.hash) ==> r.resultHash == acc.hash)
    ensures Step(query, config, acc, r).Ok? ==>
      Step(query, config, acc, r).value.hash == (if Truthy(acc.hash) then acc.hash else r.resultHash)
      && Step(query, config, acc, r).value.count == (if Truthy(acc.hash) then acc.count else r.resultCount.value)
  {
  }

  /** With the hash stored so far, the keys and agreement conditions for one more
      repetition reduce to conditions on that repetition alone. */
  lemma SnocConditions(p: seq<Rep>, acc: Acc, r: Rep)
    requires HashFromSource(p, acc) && Agreeing(p) && KeysPresent(p)
    ensures KeysPresent(p + [r]) && Agreeing(p + [r]) <==>
      r.resultHash.Some? && (!Truthy(acc.hash) ==> r.resultCount.Some?) && (Truthy(acc.hash) ==> r.resultHash == acc.hash)
  {
    KeysPresentSnoc(p, r);
    AgreeingSnoc(p, r);
    SourceFacts(p, acc);
  }

  /** The constructor succeeds exactly when every needed key is present and the hashes
      agree; hash and count then come from the source repetition. */
  lemma {:induction false} FoldOkIff(query: string, config: string, reps: seq<Rep>)
    ensures Fold(query, config, reps).Ok? <==> KeysPresent(reps) && Agreeing(reps)
    ensures Fold(query, config, reps).Ok? ==> HashFromSource(reps, Fold(query, config, reps).value)
  {
    if |reps| > 0 {
      var p, r := reps[..|reps| - 1], reps[|reps| - 1];
      assert reps == p + [r];
      FoldOkIff(query, config, p);
      if Fold(query, config, p).Ok? {
        var acc := Fold(query, config, p).value;
        StepOkIff(query, config, acc, r);
        SnocConditions(p, acc, r);
        if Fold(query, config, reps).Ok? {
          SourceSnoc(p, acc, r, Fold(query, config, reps).value);
        }
      } else {
        KeysPresentSnoc(p, r);
        AgreeingSnoc(p, r);
      }
    }
  }

  /** A result is built exactly when the repetitions have their keys and agree on the
      hash; the loader drops every other one. */
  lemma BuildOkIff(config: Uri, query: Uri, reps: seq<Rep>)
    ensures Build(config, query, reps).Ok? <==> KeysPresent(reps) && Agreeing(reps)
    ensures Build(config, query, reps).Ok? ==>
      var s := Build(config, query, reps).value;
      s.config == ConfigId(config.path) && s.query == QueryId(query.path, query.fragment)
      && HashFromSource(reps, Acc(s.resultHash, s.resultCount, s.resultTimes, s.otherTimes))
  {
    FoldOkIff(QueryId(query.path, query.fragment), ConfigId(config.path), reps);
  }

  /** The length of the longest binding-key list among the repetitions. */
  function LongestBindings(reps: seq<Rep>): nat {
    if |reps| == 0 then 0
    else
      var r := reps[|reps| - 1];
      var n := if r.resultBindings.Some? then |r.resultBindings.value| else 0;
      var m := LongestBindings(reps[..|reps| - 1]);
      if n > m then n else m
  }

  /** The result times are as long as the longest binding list of any repetition. */
  lemma {:induction false} ResultTimesLength(query: string, config: string, reps: seq<Rep>)
    requires Fold(query, config, reps).Ok?
    ensures |Fold(query, config, reps).value.result| == LongestBindings(reps)
  {
    if |reps| > 0 {
      var p := reps[..|reps| - 1];
      ResultTimesLength(query, config, p);
    }
  }

  // ---------------------------------------------------------------- ChronomunicaResults

  /** The parsed result file: for each config URI, for each query URI, the repetitions. */
  type Data = seq<(Uri, seq<(Uri, seq<Rep>)>)>

  /** The values `build` succeeds on over `xs`, in order, the failures dropped. */
  function Successes<X, S>(build: X -> Outcome<S>, xs: seq<X>): seq<S> {
    if |xs| == 0 then []
    else Successes(build, xs[..|xs| - 1]) + (if build(xs[|xs| - 1]).Ok? then [build(xs[|xs| - 1]).value] else [])
  }

  /** A value is among the successes exactly when `build` yields it for one of the inputs. */
  lemma {:induction false} SuccessesMembers<X, S>(build: X -> Outcome<S>, xs: seq<X>, s: S)
    ensures s in Successes(build, xs) <==> exists j :: 0 <= j < |xs| && build(xs[j]) == Ok(s)
  {
    if |xs| > 0 {
      var n := |xs|;
      var p := xs[..n - 1];
      SuccessesMembers(build, p, s);
      if s in Successes(build, p) {
        var j :| 0 <= j < |p| && build(p[j]) == Ok(s);
        assert xs[j] == p[j];
      }
      if exists j :: 0 <= j < n && build(xs[j]) == Ok(s) {
        var j :| 0 <= j < n && build(xs[j]) == Ok(s);
        if j < n - 1 {
          assert xs[j] == p[j];
        }
      }
    }
  }

  /** The summaries built for one config, in query order, the failures dropped. */
  function LoadedConfig(config: Uri, queries: seq<(Uri, seq<Rep>)>): seq<Summary> {
    Successes((query: (Uri, seq<Rep>)) => Build(config, query.0, query.1), queries)
  }

  /** The summaries of the whole file, config by config. */
  function Loaded(data: Data): seq<Summary> {
    Flattened((c: (Uri, seq<(Uri, seq<Rep>)>)) => LoadedConfig(c.0, c.1), data)
  }

  /** A summary is loaded for a config exactly when it is built from one of its queries. */
  lemma LoadedConfigMembers(config: Uri, queries: seq<(Uri, seq<Rep>)>, s: Summary)
    ensures s in LoadedConfig(config, queries) <==> exists j :: 0 <= j < |queries| && Build(config, queries[j].0, queries[j].1) == Ok(s)
  {
    SuccessesMembers((query: (Uri, seq<Rep>)) => Build(config, query.0, query.1), queries, s);
  }

  /** A summary is loaded exactly when it is built from some (config, query) pair. */
  lemma LoadedMembers(data: Data, s: Summary)
    ensures s in Loaded(data) <==> exists i, j :: 0 <= i < |data| && 0 <= j < |data[i].1| && Build(data[i].0, data[i].1[j].0, data[i].1[j].1) == Ok(s)
  {
    FlattenedMembers((c: (Uri, seq<(Uri, seq<Rep>)>)) => LoadedConfig(c.0, c.1), data, s);
    forall i | 0 <= i < |data| {
      LoadedConfigMembers(data[i].0, data[i].1, s);
    }
  }

  /** `ChronomunicaResults.__init__` after the file is parsed: a result per pair, those
      whose construction raises logged and dropped. */
  method LoadResults(data: Data) returns (results: seq<Summary>)
    ensures results == Loaded(data)
  {
    results := [];
    for i := 0 to |data|
      invariant results == Loaded(data[..i])
    {
      var (config, configData) := data[i];
      assert data[..i + 1][..i] == data[..i];
      var built := LoadConfig(config, configData);
      results := results + built;
    }
    assert data[..|data|] == data;
  }

  /** The inner loop of `ChronomunicaResults.__init__`: the results of one config. */
  method LoadConfig(config: Uri, configData: seq<(Uri, seq<Rep>)>) returns (built: seq<Summary>)
    ensures built == LoadedConfig(config, configData)
  {
    built := [];
    for j := 0 to |configData|
      invariant built == LoadedConfig(config, configData[..j])
    {
      var (query, queryData) := configData[j];
      assert configData[..j + 1][..j] == configData[..j];
      var r := NewResult(config, query, queryData);
      if r.Ok? {
        built := built + [r.value];
      }
    }
    assert configData[..|configData|] == configData;
  }

  // ---------------------------------------------------------------- plot layout

  /** `make_diefficiency_y_axis`: the result numbers 1 to `length`. */
  function YAxis(length: int): (r: seq<int>)
    ensures |r| == if length > 0 then length else 0
    ensures |r| > 0 ==> r[0] == 1 && r[|r| - 1] == length
    ensures forall i :: 0 < i < |r| ==> r[i] == r[i - 1] + 1
  {
    if length <= 0 then [] else YAxis(length - 1) + [length]
  }

  /** `calculate_ticks`: the tick spacing for a maximum value; None past 2000, where the
      function falls off its end. */
  function Ticks(maxValue: int): Option<int> {
    if maxValue < 20 then Some(1)
    else if maxValue < 200 then Some(10)
    else if maxValue < 2000 then Some(100)
    else None
  }

  /** At most 20 ticks, at least 2 once the spacing exceeds 1, and a spacing for every
      value below 2000 only. */
  lemma TicksBounds(v: int)
    ensures Ticks(v).None? <==> v >= 2000
    ensures Ticks(v).Some? ==> v < 20 * Ticks(v).value && (Ticks(v).value == 1 || 2 * Ticks(v).value <= v)
  {
  }

  /** A larger maximum never gets a finer spacing. */
  lemma TicksMonotone(v: int, w: int)
    requires v <= w && Ticks(w).Some?
    ensures Ticks(v).Some? && Ticks(v).value <= Ticks(w).value
  {
  }

  /** `ceil(sqrt(n))` for a natural number. */
  function CeilSqrt(n: nat): (c: nat)
    ensures c * c >= n
    ensures c == 0 || (c - 1) * (c - 1) < n
  {
    if n == 0 then 0
    else
      var c := CeilSqrt(n - 1);
      if c * c >= n then c
      else
        SquareSucc(c);
        c + 1
  }

  lemma SquareSucc(c: nat)
    ensures (c + 1) * (c + 1) == c * c + 2 * c + 1
    ensures (c + 1 - 1) * (c + 1 - 1) == c * c
  {
  }

  /** `ceil(a / b)` for positive b. */
  function CeilDiv(a: nat, b: nat): nat
    requires b > 0
  {
    (a + b - 1) / b
  }

  /** `calculate_rows_cols`: (rows, cols); a negative count fails in `sqrt`, zero divides
      by zero. */
  function RowsCols(subplots: int): Outcome<(int, int)> {
    if subplots < 0 then Err("ValueError: math domain error")
    else if subplots == 0 then Err("ZeroDivisionError: division by zero")
    else
      var cols := CeilSqrt(subplots);
      Ok((CeilDiv(subplots, cols), cols))
  }

  lemma CeilDivBounds(a: nat, b: nat)
    requires b > 0
    ensures CeilDiv(a, b) * b >= a && (CeilDiv(a, b) - 1) * b < a
  {
    var q, m := (a + b - 1) / b, (a + b - 1) % b;
    assert a + b - 1 == q * b + m && 0 <= m < b;
    assert (q - 1) * b == q * b - b;
  }

  lemma MulAtLeast(x: int, y: int, z: nat)
    requires x >= y
    ensures x * z >= y * z
  {
  }

  /** For n subplots the grid has room for all of them, is no taller than it is wide, and
      has no empty row. */
  lemma RowsColsGrid(n: int)
    ensures RowsCols(n).Ok? <==> n >= 1
    ensures RowsCols(n).Ok? ==>
      var (rows, cols) := RowsCols(n).value;
      1 <= rows <= cols && rows * cols >= n && (rows - 1) * cols < n
  {
    if n >= 1 {
      var cols := CeilSqrt(n);
      var rows := CeilDiv(n, cols);
      CeilDivBounds(n, cols);
      assert rows >= 1;
      if rows > cols {
        MulAtLeast(rows - 1, cols, cols);
      }
    }
  }
}
