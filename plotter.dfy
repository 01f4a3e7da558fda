/**
 * chronomunica/plotter.py: `ChronomunicaResults.result_times`, which averages, for every
 * (config, query) pair of a Chronomunica result file, the arrival times of the repetitions
 * that produced the most results, and groups the averages by query id and then config id.
 * The ids are derived as in processing/diefficiency.py and the repetition records are the
 * same.
 */
module Plotter {
  import opened Wrappers
  import Seqs
  import opened Dicts
  import opened Diefficiency

  /** The repetitions that carry a `result_count`. */
  function WithCount(reps: seq<Rep>): (r: seq<Rep>)
    ensures forall x :: x in r <==> x in reps && x.resultCount.Some?
  {
    if |reps| == 0 then []
    else WithCount(reps[..|reps| - 1]) + (if reps[|reps| - 1].resultCount.Some? then [reps[|reps| - 1]] else [])
  }

  /** `max(int(r["result_count"]) for r in query_data)` over repetitions that all carry a
      count. */
  function MaxCount(reps: seq<Rep>): (m: int)
    requires |reps| > 0 && forall x :: x in reps ==> x.resultCount.Some?
    ensures forall x :: x in reps ==> x.resultCount.value <= m
    ensures exists x :: x in reps && x.resultCount.value == m
  {
    var last := reps[|reps| - 1].resultCount.value;
    if |reps| == 1 then last
    else
      var m := MaxCount(reps[..|reps| - 1]);
      assert forall x :: x in reps ==> x in reps[..|reps| - 1] || x == reps[|reps| - 1];
      if last > m then last else m
  }

  /** The repetitions whose count is `required`. */
  function WithRequired(reps: seq<Rep>, required: int): (r: seq<Rep>)
    ensures forall x :: x in r <==> x in reps && x.resultCount == Some(required)
  {
    if |reps| == 0 then []
    else WithRequired(reps[..|reps| - 1], required) + (if reps[|reps| - 1].resultCount == Some(required) then [reps[|reps| - 1]] else [])
  }

  /** One repetition of the averaging loop: a running list shorter than the required count is
      replaced by the repetition's times; otherwise its first `required` entries become the
      midpoints with the repetition's times. */
  function AverageStep(avg: seq<real>, rep: Rep, required: int): Outcome<seq<real>> {
    if rep.resultBindings.None? then Err("KeyError: 'result_bindings'")
    else
      var times := Times(rep.resultBindings.value);
      if |avg| < required then Ok(times)
      else if |times| < required then Err("IndexError: list index out of range")
      else Ok(seq(|avg|, i requires 0 <= i < |avg| => if i < required then (avg[i] + times[i]) / 2.0 else avg[i]))
  }

  /** The averaging loop over the kept repetitions. */
  function Average(reps: seq<Rep>, required: int): Outcome<seq<real>> {
    if |reps| == 0 then Ok([])
    else
      match Average(reps[..|reps| - 1], required)
      case Err(e) => Err(e)
      case Ok(avg) => AverageStep(avg, reps[|reps| - 1], required)
  }

  /** The averaged arrival times of one (config, query) pair, or what it raises. */
  function PairTimes(reps: seq<Rep>): Outcome<seq<real>> {
    var counted := WithCount(reps);
    if |counted| == 0 then Err("ValueError: max() arg is an empty sequence")
    else
      var required := MaxCount(counted);
      Average(WithRequired(counted, required), required)
  }

  /** Some repetition's i-th time is at most v. */
  predicate Below(reps: seq<Rep>, i: nat, v: real) {
    exists j :: 0 <= j < |reps| && reps[j].resultBindings.Some? && i < |reps[j].resultBindings.value|
      && Seconds(reps[j].resultBindings.value[i]) <= v
  }

  /** Some repetition's i-th time is at least v. */
  predicate Above(reps: seq<Rep>, i: nat, v: real) {
    exists j :: 0 <= j < |reps| && reps[j].resultBindings.Some? && i < |reps[j].resultBindings.value|
      && v <= Seconds(reps[j].resultBindings.value[i])
  }

  lemma BoundsGrow(p: seq<Rep>, r: Rep, i: nat, v: real)
    ensures Below(p, i, v) ==> Below(p + [r], i, v)
    ensures Above(p, i, v) ==> Above(p + [r], i, v)
  {
    var rs := p + [r];
    if Below(p, i, v) {
      var j :| 0 <= j < |p| && p[j].resultBindings.Some? && i < |p[j].resultBindings.value| && Seconds(p[j].resultBindings.value[i]) <= v;
      assert rs[j] == p[j];
    }
    if Above(p, i, v) {
      var j :| 0 <= j < |p| && p[j].resultBindings.Some? && i < |p[j].resultBindings.value| && v <= Seconds(p[j].resultBindings.value[i]);
      assert rs[j] == p[j];
    }
  }

  /** Each averaged entry lies between the i-th times of two of the repetitions averaged:
      the average never leaves the range of the data it averages. */
  lemma {:induction false} AverageBetween(reps: seq<Rep>, required: int)
    requires Average(reps, required).Ok?
    ensures forall i :: 0 <= i < |Average(reps, required).value| ==>
      Below(reps, i, Average(reps, required).value[i]) && Above(reps, i, Average(reps, required).value[i])
  {
    if |reps| > 0 {
      var p, r := reps[..|reps| - 1], reps[|reps| - 1];
      assert reps == p + [r];
      AverageBetween(p, required);
      var avg := Average(p, required).value;
      var avg' := Average(reps, required).value;
      var t := r.resultBindings.value;
      forall i | 0 <= i < |avg'| ensures Below(reps, i, avg'[i]) && Above(reps, i, avg'[i]) {
        if |avg| < required || i < required {
          assert Seconds(t[i]) == Times(t)[i];
          assert reps[|reps| - 1] == r;
        }
        if |avg| >= required {
          BoundsGrow(p, r, i, avg[i]);
        }
        if |avg| >= required && i < required {
          var m := avg'[i];
          assert m == (avg[i] + Times(t)[i]) / 2.0;
          if avg[i] <= Times(t)[i] {
            BoundsGrow(p, r, i, m);
            assert Below(p, i, m);
          } else {
            BoundsGrow(p, r, i, m);
            assert Above(p, i, m);
          }
        } else if |avg| >= required {
          BoundsGrow(p, r, i, avg'[i]);
        }
      }
    }
  }

  /** Only repetitions with a count are considered, only those with the largest count are
      averaged, and without any count `max` raises. */
  lemma PairTimesKeeps(reps: seq<Rep>)
    ensures PairTimes(reps).Err? && PairTimes(reps).error == "ValueError: max() arg is an empty sequence"
      <==> forall x :: x in reps ==> x.resultCount.None?
    ensures (exists x :: x in reps && x.resultCount.Some?) ==>
      var counted := WithCount(reps);
      var required := MaxCount(counted);
      && (forall x :: x in reps && x.resultCount.Some? ==> x.resultCount.value <= required)
      && (forall x :: x in WithRequired(counted, required) <==> x in reps && x.resultCount == Some(required))
      && PairTimes(reps) == Average(WithRequired(counted, required), required)
  {
    var counted := WithCount(reps);
    if |counted| > 0 {
      var required := MaxCount(counted);
      AverageErrors(WithRequired(counted, required), required);
    } else {
      assert forall x :: x in reps ==> x.resultCount.None?;
    }
  }

  /** The averaging loop raises only a KeyError or an IndexError. */
  lemma {:induction false} AverageErrors(reps: seq<Rep>, required: int)
    ensures Average(reps, required).Err? ==>
      Average(reps, required).error in {"KeyError: 'result_bindings'", "IndexError: list index out of range"}
  {
    if |reps| > 0 {
      AverageErrors(reps[..|reps| - 1], required);
    }
  }

  // ---------------------------------------------------------------- grouping

  /** One averaged pair: query id, config id, arrival times. */
  type Row = (string, string, seq<real>)

  /** The pairs of the file in loop order: configs outside, their queries inside. */
  function ConfigPairs(config: Uri, queries: seq<(Uri, seq<Rep>)>): seq<(Uri, Uri, seq<Rep>)> {
    if |queries| == 0 then []
    else ConfigPairs(config, queries[..|queries| - 1]) + [(config, queries[|queries| - 1].0, queries[|queries| - 1].1)]
  }

  function Pairs(data: Data): seq<(Uri, Uri, seq<Rep>)> {
    if |data| == 0 then [] else Pairs(data[..|data| - 1]) + ConfigPairs(data[|data| - 1].0, data[|data| - 1].1)
  }

  /** The averaged rows of the pairs, or the first error raised. */
  function Rows(pairs: seq<(Uri, Uri, seq<Rep>)>): Outcome<seq<Row>> {
    if |pairs| == 0 then Ok([])
    else
      match Rows(pairs[..|pairs| - 1])
      case Err(e) => Err(e)
      case Ok(rows) =>
        var (config, query, reps) := pairs[|pairs| - 1];
        match PairTimes(reps)
        case Err(e) => Err(e)
        case Ok(times) => Ok(rows + [(QueryId(query.path, query.fragment), ConfigId(config.path), times)])
  }

  /** `result_times[query_id][config_id] = average_arrivals`, creating the inner dictionary
      on the first sight of the query id. */
  function Place(d: Dict<string, Dict<string, seq<real>>>, row: Row): Dict<string, Dict<string, seq<real>>> {
    Put(d, row.0, Put(Get(d, row.0).GetOr([]), row.1, row.2))
  }

  function Grouped(rows: seq<Row>): Dict<string, Dict<string, seq<real>>> {
    if |rows| == 0 then [] else Place(Grouped(rows[..|rows| - 1]), rows[|rows| - 1])
  }

  /** `result_times()`: the nested dictionary, or the error raised. */
  function ResultTimes(data: Data): Outcome<Dict<string, Dict<string, seq<real>>>> {
    match Rows(Pairs(data))
    case Err(e) => Err(e)
    case Ok(rows) => Ok(Grouped(rows))
  }

  /** The (config id, times) entries of the rows of one query id, in order. */
  function Column(rows: seq<Row>, q: string): seq<(string, seq<real>)> {
    if |rows| == 0 then []
    else Column(rows[..|rows| - 1], q) + (if rows[|rows| - 1].0 == q then [(rows[|rows| - 1].1, rows[|rows| - 1].2)] else [])
  }

  /** A query id is present exactly when one of its rows is, and maps to its rows' config
      ids and times with later rows overwriting earlier ones of the same config id. */
  lemma {:induction false} GroupedLookup(rows: seq<Row>, q: string)
    ensures Valid(Grouped(rows))
    ensures Get(Grouped(rows), q) == if Column(rows, q) == [] then None else Some(PutAll([], Column(rows, q)))
  {
    if |rows| > 0 {
      var p, r := rows[..|rows| - 1], rows[|rows| - 1];
      GroupedLookup(p, q);
      GroupedLookup(p, r.0);
      var d := Grouped(p);
      var inner := Get(d, r.0).GetOr([]);
      GetPut(d, r.0, Put(inner, r.1, r.2), q);
      if q == r.0 {
        assert Column(rows, q) == Column(p, q) + [(r.1, r.2)];
        PutAllSnoc([], Column(p, q), (r.1, r.2));
        assert Column(p, q) == [] ==> Column(rows, q) == [] + [(r.1, r.2)];
      } else {
        assert Column(rows, q) == Column(p, q) + [] == Column(p, q);
      }
    }
  }

  /** Two rows with the same query id and config id: only the later one's times survive.
      A config file of the same name in two directories has one id, so this happens. */
  lemma LaterRowWins(rows: seq<Row>, q: string, c: string)
    ensures Valid(Grouped(rows))
    ensures Get(Grouped(rows), q).Some? ==> Get(Get(Grouped(rows), q).value, c) == LastValue(Column(rows, q), c)
  {
    GroupedLookup(rows, q);
    if Column(rows, q) != [] {
      GetPutAll([], Column(rows, q), c);
    }
  }

  lemma SameFileNameSameConfig(dir1: string, dir2: string, name: string)
    ensures ConfigId(dir1 + "/" + name) == ConfigId(dir2 + "/" + name)
  {
    ConfigIdLastSegment(dir1, name);
    ConfigIdLastSegment(dir2, name);
  }

  // ---------------------------------------------------------------- the loop

  /** An error stops the rows for good. */
  lemma {:induction false} RowsErrSticks(pairs: seq<(Uri, Uri, seq<Rep>)>, rest: seq<(Uri, Uri, seq<Rep>)>)
    requires Rows(pairs).Err?
    ensures Rows(pairs + rest) == Rows(pairs)
    decreases |rest|
  {
    if |rest| > 0 {
      var init := rest[..|rest| - 1];
      RowsErrSticks(pairs, init);
      assert (pairs + rest)[..|pairs + rest| - 1] == pairs + init;
    } else {
      assert pairs + rest == pairs;
    }
  }

  lemma {:induction false} ConfigPairsAppend(config: Uri, a: seq<(Uri, seq<Rep>)>, b: seq<(Uri, seq<Rep>)>)
    ensures ConfigPairs(config, a + b) == ConfigPairs(config, a) + ConfigPairs(config, b)
    decreases |b|
  {
    if |b| == 0 {
      assert a + b == a;
    } else {
      var init := b[..|b| - 1];
      ConfigPairsAppend(config, a, init);
      assert (a + b)[..|a + b| - 1] == a + init;
      assert (a + b)[|a + b| - 1] == b[|b| - 1];
    }
  }

  lemma {:induction false} PairsAppend(a: Data, b: Data)
    ensures Pairs(a + b) == Pairs(a) + Pairs(b)
    decreases |b|
  {
    if |b| == 0 {
      assert a + b == a;
    } else {
      var init := b[..|b| - 1];
      PairsAppend(a, init);
      assert (a + b)[..|a + b| - 1] == a + init;
      assert (a + b)[|a + b| - 1] == b[|b| - 1];
    }
  }

  /** The pairs up to query j of config i are a prefix of all the pairs. */
  lemma PairsPrefix(data: Data, i: nat, j: nat)
    requires i < |data| && j <= |data[i].1|
    ensures exists rest :: Pairs(data) == Pairs(data[..i]) + ConfigPairs(data[i].0, data[i].1[..j]) + rest
  {
    var c, qs := data[i].0, data[i].1;
    assert data == data[..i + 1] + data[i + 1..];
    PairsAppend(data[..i + 1], data[i + 1..]);
    assert data[..i + 1][..i] == data[..i];
    assert qs == qs[..j] + qs[j..];
    ConfigPairsAppend(c, qs[..j], qs[j..]);
    var before, here, after, later := Pairs(data[..i]), ConfigPairs(c, qs[..j]), ConfigPairs(c, qs[j..]), Pairs(data[i + 1..]);
    assert Pairs(data[..i + 1]) == before + (here + after);
    assert Pairs(data) == before + (here + after) + later;
    Seqs.Regroup(before, here, after, later);
  }

  lemma {:induction false} AverageErrSticks(reps: seq<Rep>, required: int, k: nat)
    requires k <= |reps| && Average(reps[..k], required).Err?
    ensures Average(reps, required) == Average(reps[..k], required)
    decreases |reps| - k
  {
    if k < |reps| {
      assert reps[..k + 1][..k] == reps[..k];
      AverageErrSticks(reps, required, k + 1);
    } else {
      assert reps[..k] == reps;
    }
  }

  /** The averaging loop of one pair. */
  method AverageArrivals(reps: seq<Rep>, required: int) returns (r: Outcome<seq<real>>)
    ensures r == Average(reps, required)
  {
    var average: seq<real> := [];
    for k := 0 to |reps|
      invariant Average(reps[..k], required) == Ok(average)
    {
      var repetition := reps[k];
      assert reps[..k + 1][..k] == reps[..k];
      if repetition.resultBindings.None? {
        r := Err("KeyError: 'result_bindings'");
        AverageErrSticks(reps, required, k + 1);
        return;
      }
      var times := Times(repetition.resultBindings.value);
      if |average| < required {
        average := times;
      } else {
        ghost var before := average;
        for i := 0 to if required > 0 then required else 0
          invariant |average| == |before| && i <= |times|
          invariant forall m :: 0 <= m < |average| ==> average[m] == (if m < i then (before[m] + times[m]) / 2.0 else before[m])
        {
          if i >= |times| {
            r := Err("IndexError: list index out of range");
            AverageErrSticks(reps, required, k + 1);
            return;
          }
          average := average[i := (average[i] + times[i]) / 2.0];
        }
        assert average == seq(|before|, m requires 0 <= m < |before| => if m < required then (before[m] + times[m]) / 2.0 else before[m]);
      }
    }
    assert reps[..|reps|] == reps;
    r := Ok(average);
  }

  /** `result_times` before the grouping: the filters, the largest count, and the loop. */
  method RepetitionTimes(reps: seq<Rep>) returns (r: Outcome<seq<real>>)
    ensures r == PairTimes(reps)
  {
    var counted := WithCount(reps);
    if |counted| == 0 {
      return Err("ValueError: max() arg is an empty sequence");
    }
    var required := MaxCount(counted);
    r := AverageArrivals(WithRequired(counted, required), required);
  }

  /** One pair more: its row is added, or its error ends the rows. */
  lemma PairStep(prefix: seq<(Uri, Uri, seq<Rep>)>, pair: (Uri, Uri, seq<Rep>), rows: seq<Row>)
    requires Rows(prefix) == Ok(rows)
    ensures Rows(prefix + [pair]) ==
      match PairTimes(pair.2)
      case Err(e) => Err(e)
      case Ok(times) => Ok(rows + [(QueryId(pair.1.path, pair.1.fragment), ConfigId(pair.0.path), times)])
  {
    assert (prefix + [pair])[..|prefix|] == prefix;
  }

  /** Creating the inner dictionary when missing and then setting the entry is `Place`. */
  lemma PlaceInPlace(d: Dict<string, Dict<string, seq<real>>>, q: string, c: string)
    requires Valid(d)
    ensures var d1 := if HasKey(d, q) then d else Put(d, q, []);
      Get(d1, q).Some? && forall v :: Put(d1, q, Put(Get(d1, q).GetOr([]), c, v)) == Place(d, (q, c, v))
  {
    if !HasKey(d, q) {
      GetPut(d, q, [], q);
      forall v ensures Put(Put(d, q, []), q, Put([], c, v)) == Put(d, q, Put([], c, v)) {
        PutTwice(d, q, [], Put([], c, v));
      }
    }
  }

  /** The body of the inner loop: the query's entry is created when missing, and the pair's
      averaged times are stored under its query id and config id. */
  method AddPair(resultTimes: Dict<string, Dict<string, seq<real>>>, queryId: string, configId: string, queryData: seq<Rep>)
    returns (resultTimes': Dict<string, Dict<string, seq<real>>>, average: Outcome<seq<real>>)
    requires Valid(resultTimes)
    ensures average == PairTimes(queryData)
    ensures average.Ok? ==> resultTimes' == Place(resultTimes, (queryId, configId, average.value))
  {
    resultTimes' := resultTimes;
    if !HasKey(resultTimes', queryId) {
      resultTimes' := Put(resultTimes', queryId, []);
    }
    PlaceInPlace(resultTimes, queryId, configId);
    average := RepetitionTimes(queryData);
    if average.Ok? {
      resultTimes' := Put(resultTimes', queryId, Put(Get(resultTimes', queryId).value, configId, average.value));
    }
  }

  /** `result_times`: configs outside, their queries inside; the first error raised ends it. */
  method ComputeResultTimes(data: Data) returns (r: Outcome<Dict<string, Dict<string, seq<real>>>>)
    ensures r == ResultTimes(data)
  {
    var resultTimes: Dict<string, Dict<string, seq<real>>> := [];
    ghost var rows: seq<Row> := [];
    for i := 0 to |data|
      invariant Rows(Pairs(data[..i])) == Ok(rows) && resultTimes == Grouped(rows)
    {
      var failure;
      resultTimes, rows, failure := ConfigTimes(data, i, resultTimes, rows);
      if failure.Some? {
        return Err(failure.value);
      }
    }
    assert data[..|data|] == data;
    r := Ok(resultTimes);
  }

  /** The inner loop, over the queries of the i-th config: their rows are added to the
      dictionary, or the first error raised is the error of `result_times`. */
  method ConfigTimes(data: Data, i: nat, resultTimes: Dict<string, Dict<string, seq<real>>>, ghost rows: seq<Row>)
    returns (resultTimes': Dict<string, Dict<string, seq<real>>>, ghost rows': seq<Row>, failure: Option<string>)
    requires i < |data|
    requires Rows(Pairs(data[..i])) == Ok(rows) && resultTimes == Grouped(rows)
    ensures failure.None? ==> Rows(Pairs(data[..i + 1])) == Ok(rows') && resultTimes' == Grouped(rows')
    ensures failure.Some? ==> ResultTimes(data) == Err(failure.value)
  {
    ConfigPairsTake(data, i, 0);
    resultTimes', rows', failure := resultTimes, rows, None;
    for j := 0 to |data[i].1|
      invariant Rows(Pairs(data[..i]) + ConfigPairs(data[i].0, data[i].1[..j])) == Ok(rows') && resultTimes' == Grouped(rows')
      invariant failure.None?
    {
      resultTimes', rows', failure := PairPass(data, i, j, resultTimes', rows');
      if failure.Some? {
        return;
      }
    }
    ConfigPairsTake(data, i, |data[i].1|);
  }

  /** Where the pairs up to query j of config i are, in terms of the configs before i. */
  lemma ConfigPairsTake(data: Data, i: nat, j: nat)
    requires i < |data| && j <= |data[i].1|
    ensures j == 0 ==> Pairs(data[..i]) + ConfigPairs(data[i].0, data[i].1[..j]) == Pairs(data[..i])
    ensures j == |data[i].1| ==> Pairs(data[..i]) + ConfigPairs(data[i].0, data[i].1[..j]) == Pairs(data[..i + 1])
  {
    assert data[i].1[..|data[i].1|] == data[i].1;
    assert data[..i + 1][..i] == data[..i];
  }

  /** The pair of query j of config i follows the pairs before it. */
  lemma ConfigPairsNext(data: Data, i: nat, j: nat)
    requires i < |data| && j < |data[i].1|
    ensures Pairs(data[..i]) + ConfigPairs(data[i].0, data[i].1[..j + 1])
         == Pairs(data[..i]) + ConfigPairs(data[i].0, data[i].1[..j]) + [(data[i].0, data[i].1[j].0, data[i].1[j].1)]
  {
    assert data[i].1[..j + 1][..j] == data[i].1[..j];
  }

  lemma GroupedSnoc(rows: seq<Row>, row: Row)
    ensures Grouped(rows + [row]) == Place(Grouped(rows), row)
  {
    assert (rows + [row])[..|rows|] == rows;
  }

  /** The body of the inner loop: the row of query j of config i is added to the
      dictionary, or its error is the error of `result_times`. */
  method PairPass(data: Data, i: nat, j: nat, resultTimes: Dict<string, Dict<string, seq<real>>>, ghost rows: seq<Row>)
    returns (resultTimes': Dict<string, Dict<string, seq<real>>>, ghost rows': seq<Row>, failure: Option<string>)
    requires i < |data| && j < |data[i].1|
    requires Rows(Pairs(data[..i]) + ConfigPairs(data[i].0, data[i].1[..j])) == Ok(rows) && resultTimes == Grouped(rows)
    ensures failure.None? ==>
              Rows(Pairs(data[..i]) + ConfigPairs(data[i].0, data[i].1[..j + 1])) == Ok(rows') && resultTimes' == Grouped(rows')
    ensures failure.Some? ==> ResultTimes(data) == Err(failure.value)
  {
    var config, query, queryData := data[i].0, data[i].1[j].0, data[i].1[j].1;
    var queryId, configId := QueryId(query.path, query.fragment), ConfigId(config.path);
    ghost var prefix := Pairs(data[..i]) + ConfigPairs(config, data[i].1[..j]);
    ConfigPairsNext(data, i, j);
    GroupedLookup(rows, queryId);
    var average;
    resultTimes', average := AddPair(resultTimes, queryId, configId, queryData);
    PairStep(prefix, (config, query, queryData), rows);
    if average.Err? {
      rows', failure := rows, Some(average.error);
      PairsPrefix(data, i, j + 1);
      ghost var rest :| Pairs(data) == prefix + [(config, query, queryData)] + rest;
      RowsErrSticks(prefix + [(config, query, queryData)], rest);
      return;
    }
    GroupedSnoc(rows, (queryId, configId, average.value));
    rows', failure := rows + [(queryId, configId, average.value)], None;
  }

  // ---------------------------------------------------------------- the y axis

  /** The positional parameters of `make_diefficiency_y_axis` as written, and as evidently
      intended for a method called through the instance. */
  const YAxisParameters: seq<string> := ["length"]
  const YAxisParametersWithSelf: seq<string> := ["self", "length"]

  /** A call that Python lets through, or the TypeError it raises when a plain function
      gets another number of positional arguments than it has parameters. */
  datatype Call<T> = Called(value: T) | TypeError(callee: string, takes: nat, given: nat)

  /** `self.make_diefficiency_y_axis(len(arrival_times))`: a function looked up on the
      instance is bound to it, so it receives the instance as its first positional
      argument, followed by the one argument of the call. */
  function YAxisCall(parameters: seq<string>, length: int): (r: Call<seq<int>>)
    ensures r.Called? <==> |parameters| == 2
    ensures r.Called? ==> r.value == YAxis(length)
    ensures r.TypeError? ==> r.takes == |parameters| && r.given == 2
  {
    var given := 1 + 1;
    if given == |parameters| then Called(YAxis(length))
    else TypeError("ChronomunicaResults.make_diefficiency_y_axis", |parameters|, given)
  }

  /** As written (no `self`), every call of the y axis from a plot raises, whatever the
      length: the function takes one positional argument and is given two. */
  lemma YAxisAsWrittenRaises(length: int)
    ensures YAxisCall(YAxisParameters, length) == TypeError("ChronomunicaResults.make_diefficiency_y_axis", 1, 2)
  {
  }

  /** With `self` declared, the call gives the result numbers 1 to length. */
  lemma YAxisCorrected(length: int)
    ensures YAxisCall(YAxisParametersWithSelf, length).Called?
    ensures var axis := YAxisCall(YAxisParametersWithSelf, length).value;
      |axis| == (if length < 1 then 0 else length) && (|axis| > 0 ==> axis[0] == 1 && axis[|axis| - 1] == length)
  {
  }
}
