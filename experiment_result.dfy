/**
 * experiment/result.py: the record of one engine execution. Bindings and diagnostic text
 * are stored under the elapsed time at which the engine printed them; the record is
 * saved as a JSON manifest and can be loaded back.
 *
 * JSON parsing and serialisation are parameters: `parse` is `json.loads` (None where it
 * raises `JSONDecodeError`) and `dump` is `json.dumps(v, sort_keys=True, ensure_ascii=False)`.
 * The md5 digest is the parameter `digest`, applied to the text the hash object is fed.
 */
module ExperimentResult {
  import opened Wrappers
  import opened Strings
  import opened Seqs
  import opened Sorting
  import opened Dicts
  import opened Timestamps

  // ---------------------------------------------------------------- add_result, as a function

  /** The stores after `add_result(t, text)`: a value that parses replaces the binding at
      `t`; anything else is appended to the diagnostic text at `t`. */
  function AddStep<K(==), J>(parse: string -> Option<J>, results: Dict<K, J>, other: Dict<K, string>,
                             t: K, text: string): (Dict<K, J>, Dict<K, string>)
  {
    match parse(text)
    case Some(v) => (Put(results, t, v), other)
    case None => (results, Put(other, t, match Get(other, t) case Some(prev) => prev + text case None => text))
  }

  /** What `add_result` does to each key: only `t` changes, in the store the text belongs to. */
  lemma AddStepEffect<K, J>(parse: string -> Option<J>, results: Dict<K, J>, other: Dict<K, string>,
                            t: K, text: string, k: K)
    requires Dicts.Valid(results) && Dicts.Valid(other)
    ensures var (r, o) := AddStep(parse, results, other, t, text);
      Dicts.Valid(r) && Dicts.Valid(o)
      && (parse(text).Some? ==> o == other && Get(r, k) == (if k == t then parse(text) else Get(results, k)))
      && (parse(text).None? ==>
            r == results && Get(o, k) == (if k == t then Some(Get(other, t).GetOr("") + text) else Get(other, k)))
  {
    match parse(text)
    case Some(v) => GetPut(results, t, v, k);
    case None =>
      var joined := match Get(other, t) case Some(prev) => prev + text case None => text;
      assert joined == Get(other, t).GetOr("") + text by {
        if Get(other, t).None? { assert "" + text == text; }
      }
      GetPut(other, t, joined, k);
  }

  /** The stores after a sequence of `add_result` calls, in order. */
  function AddAll<K(==), J>(parse: string -> Option<J>, results: Dict<K, J>, other: Dict<K, string>,
                            adds: seq<(K, string)>): (Dict<K, J>, Dict<K, string>)
  {
    if |adds| == 0 then (results, other)
    else
      var (r, o) := AddAll(parse, results, other, adds[..|adds| - 1]);
      AddStep(parse, r, o, adds[|adds| - 1].0, adds[|adds| - 1].1)
  }

  lemma {:induction false} AddAllAppend<K, J>(parse: string -> Option<J>, results: Dict<K, J>, other: Dict<K, string>,
                                              a: seq<(K, string)>, b: seq<(K, string)>)
    ensures AddAll(parse, results, other, a + b)
         == (var (r, o) := AddAll(parse, results, other, a); AddAll(parse, r, o, b))
    decreases |b|
  {
    if |b| == 0 {
      assert a + b == a;
    } else {
      assert (a + b)[..|a + b| - 1] == a + b[..|b| - 1];
      AddAllAppend(parse, results, other, a, b[..|b| - 1]);
    }
  }

  /** Two calls in a row, as one line of engine output can make them. */
  lemma AddAllPair<K, J>(parse: string -> Option<J>, results: Dict<K, J>, other: Dict<K, string>,
                         t: K, x: string, y: string)
    ensures AddAll(parse, results, other, [(t, x)]) == AddStep(parse, results, other, t, x)
    ensures AddAll(parse, results, other, [(t, x), (t, y)])
         == (var (r, o) := AddStep(parse, results, other, t, x); AddStep(parse, r, o, t, y))
  {
    assert [(t, x), (t, y)][..1] == [(t, x)];
    assert [(t, x)][..0] == [];
  }

  /** Every key of either store is the key of some `add_result` call, and no key is stored twice. */
  lemma {:induction false} AddAllKeys<K, J>(parse: string -> Option<J>, adds: seq<(K, string)>)
    ensures var (r, o) := AddAll(parse, [], [], adds);
      Dicts.Valid(r) && Dicts.Valid(o) && KeysAmong(r, adds) && KeysAmong(o, adds)
  {
    if |adds| > 0 {
      var init := adds[..|adds| - 1];
      AddAllKeys(parse, init);
      var (r0, o0) := AddAll(parse, [], [], init);
      var (t, text) := adds[|adds| - 1];
      AddStepEffect(parse, r0, o0, t, text, t);
      var (r, o) := AddAll(parse, [], [], adds);
      forall k | HasKey(r, k) ensures k == t || HasKey(r0, k) {
        AddStepEffect(parse, r0, o0, t, text, k);
      }
      forall k | HasKey(o, k) ensures k == t || HasKey(o0, k) {
        AddStepEffect(parse, r0, o0, t, text, k);
      }
      KeysAmongStep(r0, r, adds);
      KeysAmongStep(o0, o, adds);
    }
  }

  /** Every key of `d` is the key of one of the calls. */
  predicate KeysAmong<K(==), V>(d: Dict<K, V>, adds: seq<(K, string)>) {
    forall i :: 0 <= i < |d| ==> exists j :: 0 <= j < |adds| && adds[j].0 == d[i].0
  }

  /** A store after one call more holds the keys it held before, and the new call's. */
  lemma KeysAmongStep<K, V>(d0: Dict<K, V>, d: Dict<K, V>, adds: seq<(K, string)>)
    requires |adds| > 0 && KeysAmong(d0, adds[..|adds| - 1])
    requires forall k :: HasKey(d, k) ==> k == adds[|adds| - 1].0 || HasKey(d0, k)
    ensures KeysAmong(d, adds)
  {
    var init := adds[..|adds| - 1];
    forall i | 0 <= i < |d| ensures exists j :: 0 <= j < |adds| && adds[j].0 == d[i].0 {
      var k := d[i].0;
      assert HasKey(d, k);
      if k == adds[|adds| - 1].0 {
        assert adds[|adds| - 1].0 == k;
      } else {
        var a :| 0 <= a < |d0| && d0[a].0 == k;
        var m :| 0 <= m < |init| && init[m].0 == d0[a].0;
        assert adds[m] == init[m];
      }
    }
    assert forall i :: 0 <= i < |d| ==> exists j :: 0 <= j < |adds| && adds[j].0 == d[i].0;
  }

  // ---------------------------------------------------------------- canonical strings and counts

  /** `get_result_values_as_strings`: the serialised values, sorted. */
  function CanonicalStrings<J>(dump: J -> string, values: seq<J>): (r: seq<string>)
    ensures |r| == |values|
  {
    Sort(Map(dump, values))
  }

  /** The canonical strings, and so the hash input, do not depend on the order the values arrived in. */
  lemma CanonicalStringsPermutation<J>(dump: J -> string, a: seq<J>, b: seq<J>)
    requires multiset(a) == multiset(b)
    ensures CanonicalStrings(dump, a) == CanonicalStrings(dump, b)
  {
    MapPermutation(dump, a, b);
    SortPermutationInvariant(Map(dump, a), Map(dump, b));
  }

  /** `__result_hash__` sorts the already sorted strings again, which changes nothing. */
  lemma HashInputIsCanonical<J>(dump: J -> string, values: seq<J>)
    ensures Sort(CanonicalStrings(dump, values)) == CanonicalStrings(dump, values)
  {
    var c := CanonicalStrings(dump, values);
    SortedUnique(Sort(c), c);
  }

  // ---------------------------------------------------------------- equality

  /** What a `__hash__` method returns. */
  datatype HashReturn = IntValue(n: int) | BytesValue(bytes: seq<bv8>)

  /** Python's `hash(x)`: anything but an int from `__hash__` is a TypeError. */
  function PyHash(returned: HashReturn): (r: Outcome<int>)
    ensures r.Ok? <==> returned.IntValue?
  {
    if returned.IntValue? then Ok(returned.n) else Err("TypeError: __hash__ method should return an integer")
  }

  /** `a == b` as written: `__hash__` returns the md5 digest's bytes, so the `hash(self)`
      that `__eq__` evaluates for another `Result` raises. */
  function EqualsAsWritten<J>(dump: J -> string, digestBytes: string -> seq<bv8>, a: seq<J>, b: seq<J>): Outcome<bool> {
    match PyHash(BytesValue(digestBytes(Concat(CanonicalStrings(dump, a)))))
    case Err(e) => Err(e)
    case Ok(x) =>
      match PyHash(BytesValue(digestBytes(Concat(CanonicalStrings(dump, b)))))
      case Err(e) => Err(e)
      case Ok(y) => Ok(x == y)
  }

  /** Comparing two results raises whatever they hold, even a result with itself. */
  lemma EqualsAsWrittenRaises<J>(dump: J -> string, digestBytes: string -> seq<bv8>, a: seq<J>, b: seq<J>)
    ensures EqualsAsWritten(dump, digestBytes, a, b).Err?
  {
    assert PyHash(BytesValue(digestBytes(Concat(CanonicalStrings(dump, a))))).Err?;
  }

  /** `a == b` as intended: two results are equal when their result hashes are. */
  function Equals<J>(dump: J -> string, digest: string -> string, a: seq<J>, b: seq<J>): bool {
    digest(Concat(CanonicalStrings(dump, a))) == digest(Concat(CanonicalStrings(dump, b)))
  }

  /** Results holding the same values in any order, under any elapsed keys, are equal. */
  lemma EqualsOrderFree<J>(dump: J -> string, digest: string -> string, a: seq<J>, b: seq<J>)
    requires multiset(a) == multiset(b)
    ensures Equals(dump, digest, a, b)
  {
    CanonicalStringsPermutation(dump, a, b);
  }

  /** `get_result_count_unique`: the number of distinct canonical strings, never more than the values. */
  function CountUnique<J>(dump: J -> string, values: seq<J>): (n: nat)
    ensures n <= |values|
    ensures |values| > 0 ==> n >= 1
  {
    CountDistinctBound(CanonicalStrings(dump, values));
    CountDistinct(CanonicalStrings(dump, values))
  }

  /** `get_url_count_unique`: the number of distinct URLs, never more than the URLs requested. */
  function UrlCountUnique(urls: seq<string>): (n: nat)
    ensures n <= |urls|
    ensures |urls| > 0 ==> n >= 1
  {
    CountDistinctBound(urls);
    CountDistinct(urls)
  }

  // ---------------------------------------------------------------- the record and its manifest

  /** The fields of a `Result`, as a value. */
  datatype ResultState<K, J> = ResultState(
    config: string, query: string,
    results: Dict<K, J>, other: Dict<K, string>,
    urls: seq<string>, stderr: Option<string>, timeout: bool,
    timeBegin: Option<DateTime>, timeEnd: Option<DateTime>)

  predicate Complete<K(==), J>(s: ResultState<K, J>) {
    Dicts.Valid(s.results) && Dicts.Valid(s.other)
    && s.timeBegin.Some? && Timestamps.Valid(s.timeBegin.value)
    && s.timeEnd.Some? && Timestamps.Valid(s.timeEnd.value)
  }

  /** The manifest: `as_dict`, as `json.dumps` writes it (dictionary keys become text). */
  datatype Manifest<J> = Manifest(
    timeBegin: string, timeEnd: string, timeTakenSeconds: real,
    engineTimeoutReached: bool, engineConfig: string, engineQuery: string, engineStderr: Option<string>,
    resultHash: string, resultCount: nat, resultCountUnique: nat,
    resultData: Dict<string, J>, resultDataOther: Dict<string, string>,
    requestedUrls: seq<string>, requestedUrlsCount: nat, requestedUrlsCountUnique: nat)

  /** JSON object keys: each key written with `keyText` (`str` for an int key). */
  function KeysAsText<K, V>(keyText: K -> string, d: Dict<K, V>): (r: Dict<string, V>)
    ensures |r| == |d|
    ensures forall i :: 0 <= i < |d| ==> r[i] == (keyText(d[i].0), d[i].1)
  {
    seq(|d|, i requires 0 <= i < |d| => (keyText(d[i].0), d[i].1))
  }

  /** Elapsed-time keys stay distinct when written as decimal text. */
  lemma KeysAsTextValid<V>(d: Dict<int, V>)
    requires Dicts.Valid(d)
    ensures Dicts.Valid(KeysAsText(IntToDecimal, d))
    ensures Values(KeysAsText(IntToDecimal, d)) == Values(d)
  {
    var r := KeysAsText(IntToDecimal, d);
    forall i, j | 0 <= i < j < |r| ensures r[i].0 != r[j].0 {
      if r[i].0 == r[j].0 {
        IntToDecimalInjective(d[i].0, d[j].0);
      }
    }
  }

  /** `as_dict`, then the key conversion `json.dumps` performs. */
  function ToManifest<K(==), J>(s: ResultState<K, J>, keyText: K -> string, dump: J -> string,
                                digest: string -> string): (m: Manifest<J>)
    requires Complete(s)
    ensures m.resultCount == |s.results| && m.resultCountUnique <= m.resultCount
    ensures m.requestedUrls == s.urls && m.requestedUrlsCount == |s.urls|
    ensures m.requestedUrlsCountUnique <= m.requestedUrlsCount
    ensures m.resultHash == digest(Concat(CanonicalStrings(dump, Values(s.results))))
  {
    HashInputIsCanonical(dump, Values(s.results));
    Manifest(
      FormatIso(s.timeBegin.value), FormatIso(s.timeEnd.value),
      SecondsBetween(s.timeBegin.value, s.timeEnd.value),
      s.timeout, s.config, s.query, s.stderr,
      digest(Concat(Sort(CanonicalStrings(dump, Values(s.results))))),
      |s.results|, CountUnique(dump, Values(s.results)),
      KeysAsText(keyText, s.results), KeysAsText(keyText, s.other),
      s.urls, |s.urls|, UrlCountUnique(s.urls))
  }

  /** Entries in another order hold their values in another order. */
  lemma ValuesPermutation<K, V>(a: Dict<K, V>, b: Dict<K, V>)
    requires multiset(a) == multiset(b)
    ensures multiset(Values(a)) == multiset(Values(b))
  {
    var second := (e: (K, V)) => e.1;
    MapIndex(second, a);
    MapIndex(second, b);
    assert Values(a) == Map(second, a);
    assert Values(b) == Map(second, b);
    MapPermutation(second, a, b);
  }

  /** What `save_result` writes: `dumps(as_dict(), sort_keys=True)`. Sorting the keys puts
      the elapsed-time keys of both dictionaries in ascending numeric order, before they
      become text, and changes nothing else: the hash and the counts do not depend on the
      order of the values. */
  function SavedManifest<J>(s: ResultState<int, J>, dump: J -> string, digest: string -> string): (m: Manifest<J>)
    requires Complete(s)
    ensures m == ToManifest(s, IntToDecimal, dump, digest).(resultData := KeysAsText(IntToDecimal, SortByKey(s.results)),
                                                             resultDataOther := KeysAsText(IntToDecimal, SortByKey(s.other)))
  {
    SortByKeyAscending(s.results);
    SortByKeyAscending(s.other);
    ValuesPermutation(SortByKey(s.results), s.results);
    CanonicalStringsPermutation(dump, Values(SortByKey(s.results)), Values(s.results));
    ToManifest(s.(results := SortByKey(s.results), other := SortByKey(s.other)), IntToDecimal, dump, digest)
  }

  /** A dictionary written with decimal keys answers for the decimal text of a key what it
      answered for the key. */
  lemma GetKeysAsText<V>(d: Dict<int, V>, k: int)
    requires Dicts.Valid(d)
    ensures Get(KeysAsText(IntToDecimal, d), IntToDecimal(k)) == Get(d, k)
  {
    var r := KeysAsText(IntToDecimal, d);
    KeysAsTextValid(d);
    if HasKey(d, k) {
      var i :| 0 <= i < |d| && d[i].0 == k;
      assert r[i].0 == IntToDecimal(k);
    }
    if HasKey(r, IntToDecimal(k)) {
      var j :| 0 <= j < |r| && r[j] == (IntToDecimal(k), Get(r, IntToDecimal(k)).value);
      IntToDecimalInjective(d[j].0, k);
      assert HasKey(d, k);
      var i :| 0 <= i < |d| && d[i] == (k, Get(d, k).value);
      assert d[i].0 == d[j].0;
    }
  }

  /** `load_result` on a parsed manifest; None where `strptime` raises. The loaded record
      keeps the text keys the manifest holds. */
  function FromManifest<J>(m: Manifest<J>): (r: Option<ResultState<string, J>>)
    ensures r.Some? ==> r.value.timeBegin.Some? && r.value.timeBegin.value.micro == 0
  {
    match (ParseIso(m.timeBegin), ParseIso(m.timeEnd))
    case (Some(b), Some(e)) =>
      Some(ResultState(m.engineConfig, m.engineQuery, m.resultData, m.resultDataOther,
                       m.requestedUrls, m.engineStderr, m.engineTimeoutReached, Some(b), Some(e)))
    case _ => None
  }

  /** Saving and loading gives back config, query, timeout, URLs and diagnostics unchanged,
      the stored values under their decimal keys, now in ascending order of the keys, and
      the times to the whole second: the loaded dictionaries answer for the decimal text of
      a key what the saved ones answered for the key. */
  lemma LoadAfterSave<J>(s: ResultState<int, J>, dump: J -> string, digest: string -> string)
    requires Complete(s)
    ensures var loaded := FromManifest(SavedManifest(s, dump, digest));
      loaded == Some(ResultState(s.config, s.query,
                                 KeysAsText(IntToDecimal, SortByKey(s.results)), KeysAsText(IntToDecimal, SortByKey(s.other)),
                                 s.urls, s.stderr, s.timeout,
                                 Some(WholeSecond(s.timeBegin.value)), Some(WholeSecond(s.timeEnd.value))))
      && Dicts.Valid(loaded.value.results) && Dicts.Valid(loaded.value.other)
      && KeysAscending(SortByKey(s.results)) && KeysAscending(SortByKey(s.other))
      && (forall k :: Get(loaded.value.results, IntToDecimal(k)) == Get(s.results, k))
      && (forall k :: Get(loaded.value.other, IntToDecimal(k)) == Get(s.other, k))
  {
    ParseFormatIso(s.timeBegin.value);
    ParseFormatIso(s.timeEnd.value);
    SortByKeyAscending(s.results);
    SortByKeyAscending(s.other);
    KeysAsTextValid(SortByKey(s.results));
    KeysAsTextValid(SortByKey(s.other));
    forall k ensures Get(KeysAsText(IntToDecimal, SortByKey(s.results)), IntToDecimal(k)) == Get(s.results, k) {
      GetKeysAsText(SortByKey(s.results), k);
      SortByKeyGet(s.results, k);
    }
    forall k ensures Get(KeysAsText(IntToDecimal, SortByKey(s.other)), IntToDecimal(k)) == Get(s.other, k) {
      GetKeysAsText(SortByKey(s.other), k);
      SortByKeyGet(s.other, k);
    }
  }

  /** `save_result`'s file name: the start time to the second. */
  function ResultFileName(timeBegin: DateTime): string
    requires Timestamps.Valid(timeBegin)
  {
    FormatCompact(timeBegin) + ".json"
  }

  /** Two results share a file exactly when they began in the same second. */
  lemma ResultFileNameCollision(t: DateTime, u: DateTime)
    requires Timestamps.Valid(t) && Timestamps.Valid(u)
    ensures ResultFileName(t) == ResultFileName(u) <==> WholeSecond(t) == WholeSecond(u)
  {
    FormatCompactSameSecond(t, u);
    if ResultFileName(t) == ResultFileName(u) {
      assert FormatCompact(t) == ResultFileName(t)[..16];
      assert FormatCompact(u) == ResultFileName(u)[..16];
    }
  }

  // ---------------------------------------------------------------- the mutable record

  class Result<K(==), J> {
    var config: string
    var query: string
    var results: Dict<K, J>
    var other: Dict<K, string>
    var urls: seq<string>
    var stderr: Option<string>
    var timeout: bool
    var timeBegin: Option<DateTime>
    var timeEnd: Option<DateTime>

    function State(): ResultState<K, J>
      reads this
    {
      ResultState(config, query, results, other, urls, stderr, timeout, timeBegin, timeEnd)
    }

    predicate Valid()
      reads this
    {
      Dicts.Valid(results) && Dicts.Valid(other)
    }

    /** A fresh record holds no results, diagnostics or URLs, no stderr and no timeout. */
    constructor(config: string, query: string)
      ensures Valid()
      ensures State() == ResultState(config, query, [], [], [], None, false, None, None)
    {
      this.config := config;
      this.query := query;
      results := [];
      other := [];
      urls := [];
      stderr := None;
      timeout := false;
      timeBegin := None;
      timeEnd := None;
    }

    /** `begin()`: records the start time read from the clock. */
    method Begin(now: DateTime)
      modifies this
      ensures State() == old(State()).(timeBegin := Some(now))
    {
      timeBegin := Some(now);
    }

    /** `end()`: records the end time read from the clock. */
    method End(now: DateTime)
      modifies this
      ensures State() == old(State()).(timeEnd := Some(now))
    {
      timeEnd := Some(now);
    }

    /** `add_result(timestamp, result)`. */
    method AddResult(parse: string -> Option<J>, timestamp: K, text: string)
      requires Valid()
      modifies this
      ensures Valid()
      ensures (results, other) == AddStep(parse, old(results), old(other), timestamp, text)
      ensures State() == old(State()).(results := results, other := other)
    {
      AddStepEffect(parse, results, other, timestamp, text, timestamp);
      match parse(text)
      case Some(v) =>
        results := Put(results, timestamp, v);
      case None =>
        match Get(other, timestamp)
        case Some(prev) => other := Put(other, timestamp, prev + text);
        case None => other := Put(other, timestamp, text);
    }

  }

  /** `load_result` on a parsed manifest: a new record holding what the manifest says,
      or None where a time does not parse. */
  method LoadResult<J>(m: Manifest<J>) returns (r: Option<Result<string, J>>)
    ensures r.None? <==> FromManifest(m).None?
    ensures r.Some? ==> fresh(r.value) && r.value.State() == FromManifest(m).value
  {
    var loaded := FromManifest(m);
    if loaded.None? {
      r := None;
      return;
    }
    var s := loaded.value;
    var res := new Result(s.config, s.query);
    res.timeout, res.timeBegin, res.timeEnd := s.timeout, s.timeBegin, s.timeEnd;
    res.urls, res.results, res.other, res.stderr := s.urls, s.results, s.other, s.stderr;
    assert res.State() == s;
    r := Some(res);
  }
}
