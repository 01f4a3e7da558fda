/**
 * processing/result-consistency.py: reads every result file of a directory, skips those
 * whose engine timed out, remembers the hash and count of the first result of each query,
 * reports every later result of that query whose hash differs, and lists the result counts
 * received per query.
 *
 * The files come in as records, in the order the directory yields them; the printed lines
 * become the returned differences and summary. The two dictionaries `expected_hash` and
 * `expected_count`, always written together under the same key, are one dictionary of
 * (hash, count) pairs here.
 */
module ResultConsistency {
  import opened Wrappers
  import opened Strings
  import opened Dicts

  datatype ResultFile = ResultFile(timeoutReached: bool, config: string, query: string, hash: string, count: int)

  /** One "Different results" report: the query, the config, the count and the expected count. */
  datatype Difference = Difference(query: string, config: string, count: int, expected: int)

  datatype Check = Check(expected: Dict<string, (string, int)>, received: Dict<string, seq<int>>, differences: seq<Difference>)

  /** A file taken into account: one whose engine did not time out. */
  predicate Counted(r: ResultFile) {
    !r.timeoutReached
  }

  /** One iteration of the loop. */
  function Step(c: Check, r: ResultFile): Check {
    if !Counted(r) then c
    else
      var differences :=
        match Get(c.expected, r.query)
        case None => c.differences
        case Some(e) => if e.0 != r.hash then c.differences + [Difference(r.query, r.config, r.count, e.1)] else c.differences;
      var expected := if HasKey(c.expected, r.query) then c.expected else Put(c.expected, r.query, (r.hash, r.count));
      var received :=
        match Get(c.received, r.query)
        case None => Put(c.received, r.query, [r.count])
        case Some(counts) => Put(c.received, r.query, counts + [r.count]);
      Check(expected, received, differences)
  }

  /** The loop over the files. */
  function Fold(rs: seq<ResultFile>): Check {
    if |rs| == 0 then Check([], [], []) else Step(Fold(rs[..|rs| - 1]), rs[|rs| - 1])
  }

  /** The counts of the counted files of query q, in order. */
  function Counts(rs: seq<ResultFile>, q: string): seq<int> {
    if |rs| == 0 then []
    else Counts(rs[..|rs| - 1], q) + (if Counted(rs[|rs| - 1]) && rs[|rs| - 1].query == q then [rs[|rs| - 1].count] else [])
  }

  /** The first counted file of query q. */
  function First(rs: seq<ResultFile>, q: string): Option<ResultFile> {
    if |rs| == 0 then None
    else if First(rs[..|rs| - 1], q).Some? then First(rs[..|rs| - 1], q)
    else if Counted(rs[|rs| - 1]) && rs[|rs| - 1].query == q then Some(rs[|rs| - 1])
    else None
  }

  /** Every counted file of a query has the same hash. */
  predicate Consistent(rs: seq<ResultFile>) {
    forall i, j :: 0 <= i < j < |rs| && Counted(rs[i]) && Counted(rs[j]) && rs[i].query == rs[j].query ==> rs[i].hash == rs[j].hash
  }

  /** One step adds a counted file's count to its query's list. */
  lemma StepReceived(c: Check, r: ResultFile)
    ensures Step(c, r).received == if Counted(r) then Put(c.received, r.query, Get(c.received, r.query).GetOr([]) + [r.count]) else c.received
  {
    if Counted(r) && Get(c.received, r.query).None? {
      assert Get(c.received, r.query).GetOr([]) + [r.count] == [r.count];
    }
  }

  /** After the loop, each query maps to the hash and count of its first counted file; a
      query with no counted file is absent. */
  lemma {:induction false} FoldExpected(rs: seq<ResultFile>, q: string)
    ensures Valid(Fold(rs).expected)
    ensures Get(Fold(rs).expected, q) == if First(rs, q).Some? then Some((First(rs, q).value.hash, First(rs, q).value.count)) else None
  {
    if |rs| > 0 {
      var p, r := rs[..|rs| - 1], rs[|rs| - 1];
      FoldExpected(p, q);
      FoldExpected(p, r.query);
      var c := Fold(p);
      if Counted(r) && !HasKey(c.expected, r.query) {
        GetPut(c.expected, r.query, (r.hash, r.count), q);
      }
    }
  }

  /** After the loop, each query maps to the counts of all its counted files, in order; a
      query with no counted file is absent. */
  lemma {:induction false} FoldReceived(rs: seq<ResultFile>, q: string)
    ensures Valid(Fold(rs).received)
    ensures Get(Fold(rs).received, q) == if Counts(rs, q) == [] then None else Some(Counts(rs, q))
  {
    if |rs| > 0 {
      var p, r := rs[..|rs| - 1], rs[|rs| - 1];
      var c := Fold(p);
      assert Fold(rs) == Step(c, r);
      StepReceived(c, r);
      FoldReceived(p, q);
      if Counted(r) {
        FoldReceived(p, r.query);
        var counts := Get(c.received, r.query).GetOr([]) + [r.count];
        GetPut(c.received, r.query, counts, q);
        if q == r.query {
          assert Counts(rs, q) == Counts(p, q) + [r.count];
          assert counts == Counts(rs, q);
        } else {
          assert Counts(rs, q) == Counts(p, q) + [] == Counts(p, q);
        }
      } else {
        assert Counts(rs, q) == Counts(p, q) + [] == Counts(p, q);
      }
    }
  }

  /** The first counted file of a query is one of the files, and no earlier file of that
      query is counted. */
  lemma {:induction false} FirstCounted(rs: seq<ResultFile>, q: string)
    ensures First(rs, q).Some? ==> exists i :: 0 <= i < |rs| && rs[i] == First(rs, q).value && Counted(rs[i]) && rs[i].query == q
    ensures First(rs, q).None? ==> forall i :: 0 <= i < |rs| ==> !(Counted(rs[i]) && rs[i].query == q)
  {
    if |rs| > 0 {
      var p := rs[..|rs| - 1];
      FirstCounted(p, q);
      if First(p, q).Some? {
        var i :| 0 <= i < |p| && p[i] == First(p, q).value && Counted(p[i]) && p[i].query == q;
        assert rs[i] == p[i];
      }
    }
  }

  /** In a consistent prefix, every counted file of a query has its first file's hash. */
  lemma FirstHashShared(rs: seq<ResultFile>, q: string, i: nat)
    requires Consistent(rs) && i < |rs| && Counted(rs[i]) && rs[i].query == q
    ensures First(rs, q).Some? && First(rs, q).value.hash == rs[i].hash
  {
    FirstCounted(rs, q);
    var j :| 0 <= j < |rs| && rs[j] == First(rs, q).value && Counted(rs[j]) && rs[j].query == q;
  }

  /** One step reports a counted file whose hash differs from its query's expected hash. */
  lemma StepDifferences(c: Check, r: ResultFile)
    ensures Step(c, r).differences == c.differences +
      (if Counted(r) && Get(c.expected, r.query).Some? && Get(c.expected, r.query).value.0 != r.hash
       then [Difference(r.query, r.config, r.count, Get(c.expected, r.query).value.1)] else [])
  {
  }

  /** The files agree with one file more when they agreed, and the new file (if counted)
      agrees with every earlier counted file of its query. */
  predicate AgreesWithEarlier(p: seq<ResultFile>, r: ResultFile) {
    Counted(r) ==> forall i :: 0 <= i < |p| && Counted(p[i]) && p[i].query == r.query ==> p[i].hash == r.hash
  }

  lemma ConsistentSnoc(p: seq<ResultFile>, r: ResultFile)
    ensures Consistent(p + [r]) <==> Consistent(p) && AgreesWithEarlier(p, r)
  {
    var rs := p + [r];
    assert forall i :: 0 <= i < |p| ==> rs[i] == p[i];
    if Consistent(p) && AgreesWithEarlier(p, r) {
      forall i, j | 0 <= i < j < |rs| && Counted(rs[i]) && Counted(rs[j]) && rs[i].query == rs[j].query
        ensures rs[i].hash == rs[j].hash
      {
        if j == |p| {
          assert rs[j] == r;
        }
      }
    }
    if Consistent(rs) && Counted(r) {
      forall i | 0 <= i < |p| && Counted(p[i]) && p[i].query == r.query ensures p[i].hash == r.hash {
        assert rs[|p|] == r;
      }
    }
  }

  /** In consistent files, a new file agrees with the earlier ones exactly when it agrees
      with the first of its query. */
  lemma AgreesWithFirst(p: seq<ResultFile>, r: ResultFile)
    requires Consistent(p) && Counted(r)
    ensures AgreesWithEarlier(p, r) <==> (First(p, r.query).Some? ==> First(p, r.query).value.hash == r.hash)
  {
    FirstCounted(p, r.query);
    if First(p, r.query).Some? && First(p, r.query).value.hash == r.hash {
      forall i | 0 <= i < |p| && Counted(p[i]) && p[i].query == r.query ensures p[i].hash == r.hash {
        FirstHashShared(p, r.query, i);
      }
    }
  }

  /** Nothing is reported exactly when the counted files of every query agree on the hash. */
  lemma {:induction false} NoDifferencesIffConsistent(rs: seq<ResultFile>)
    ensures Fold(rs).differences == [] <==> Consistent(rs)
  {
    if |rs| > 0 {
      var p, r := rs[..|rs| - 1], rs[|rs| - 1];
      NoDifferencesIffConsistent(p);
      var c := Fold(p);
      assert Fold(rs) == Step(c, r);
      StepDifferences(c, r);
      assert rs == p + [r];
      ConsistentSnoc(p, r);
      FoldExpected(p, r.query);
      if Consistent(p) && Counted(r) {
        AgreesWithFirst(p, r);
      }
    }
  }

  /** `query.split("/")[-1].replace(".sparql", "")`. */
  function ReportId(query: string): string {
    ReplaceAll(LastPiece(query, "/"), ".sparql", "")
  }

  /** `check_result_consistency`: the loop over the files, then one summary line per query,
      in the order the queries were first received. */
  method CheckResultConsistency(rs: seq<ResultFile>) returns (check: Check, summary: seq<(string, seq<int>)>)
    ensures check == Fold(rs)
    ensures |summary| == |check.received|
    ensures forall k :: 0 <= k < |summary| ==> summary[k] == (ReportId(check.received[k].0), check.received[k].1)
  {
    check := Check([], [], []);
    var i := 0;
    while i < |rs|
      invariant i <= |rs|
      invariant check == Fold(rs[..i])
    {
      assert rs[..i + 1][..i] == rs[..i];
      check := Visit(check, rs[i]);
      i := i + 1;
    }
    assert rs[..i] == rs;
    var received := check.received;
    summary := [];
    var k := 0;
    while k < |received|
      invariant k <= |received| && |summary| == k
      invariant forall m :: 0 <= m < k ==> summary[m] == (ReportId(received[m].0), received[m].1)
    {
      summary := summary + [(ReportId(received[k].0), received[k].1)];
      k := k + 1;
    }
  }

  /** The body of the loop over the files, on the three collections it updates. */
  method Visit(c: Check, r: ResultFile) returns (c': Check)
    ensures c' == Step(c, r)
  {
    var expected, received, differences := c.expected, c.received, c.differences;
    if !r.timeoutReached {
      if !HasKey(expected, r.query) {
        expected := Put(expected, r.query, (r.hash, r.count));
      } else if Get(expected, r.query).value.0 != r.hash {
        differences := differences + [Difference(r.query, r.config, r.count, Get(expected, r.query).value.1)];
      }
      if !HasKey(received, r.query) {
        received := Put(received, r.query, [r.count]);
      } else {
        received := Put(received, r.query, Get(received, r.query).value + [r.count]);
      }
    }
    c' := Check(expected, received, differences);
  }
}
