/**
 * Python's insertion-ordered `dict` (and a JavaScript object used as a record) as a
 * sequence of entries with distinct keys.
 */
module Dicts {
  import opened Wrappers
  import Seqs

  type Dict<K, V> = seq<(K, V)>

  /** No key appears twice. */
  predicate Valid<K(==), V>(d: Dict<K, V>) {
    forall i, j :: 0 <= i < j < |d| ==> d[i].0 != d[j].0
  }

  function Keys<K, V>(d: Dict<K, V>): (r: seq<K>)
    ensures |r| == |d|
    ensures forall i :: 0 <= i < |d| ==> r[i] == d[i].0
  {
    seq(|d|, i requires 0 <= i < |d| => d[i].0)
  }

  /** `d.values()`, in insertion order. */
  function Values<K, V>(d: Dict<K, V>): (r: seq<V>)
    ensures |r| == |d|
    ensures forall i :: 0 <= i < |d| ==> r[i] == d[i].1
  {
    seq(|d|, i requires 0 <= i < |d| => d[i].1)
  }

  predicate HasKey<K(==), V>(d: Dict<K, V>, k: K) {
    exists i :: 0 <= i < |d| && d[i].0 == k
  }

  /** `d.get(k)`. */
  function Get<K(==), V>(d: Dict<K, V>, k: K): (r: Option<V>)
    ensures r.None? <==> !HasKey(d, k)
    ensures r.Some? ==> exists i :: 0 <= i < |d| && d[i] == (k, r.value)
  {
    if |d| == 0 then None
    else if d[0].0 == k then Some(d[0].1)
    else
      var r := Get(d[1..], k);
      assert forall i :: 1 <= i < |d| ==> d[i] == d[1..][i - 1];
      r
  }

  /** `d[k] = v`: an existing key keeps its place, a new key goes last. */
  function Put<K(==), V>(d: Dict<K, V>, k: K, v: V): (r: Dict<K, V>)
    ensures HasKey(d, k) ==> |r| == |d| && Keys(r) == Keys(d)
    ensures !HasKey(d, k) ==> r == d + [(k, v)]
  {
    if |d| == 0 then [(k, v)]
    else if d[0].0 == k then [(k, v)] + d[1..]
    else
      assert forall i :: 1 <= i < |d| ==> d[i] == d[1..][i - 1];
      assert HasKey(d, k) ==> HasKey(d[1..], k);
      [d[0]] + Put(d[1..], k, v)
  }

  /** `d[k] = v` adds no key but `k`. */
  lemma {:induction false} PutKeys<K, V>(d: Dict<K, V>, k: K, v: V)
    ensures forall j :: 0 <= j < |Put(d, k, v)| ==> Put(d, k, v)[j].0 == k || HasKey(d, Put(d, k, v)[j].0)
  {
    if |d| > 0 && d[0].0 != k {
      PutKeys(d[1..], k, v);
      var r := Put(d, k, v);
      assert r[1..] == Put(d[1..], k, v);
      forall j | 1 <= j < |r| && r[j].0 != k ensures HasKey(d, r[j].0) {
        var m :| 0 <= m < |d[1..]| && d[1..][m].0 == r[1..][j - 1].0;
        assert d[m + 1].0 == r[j].0;
      }
    } else if |d| > 0 {
      var r := Put(d, k, v);
      forall j | 1 <= j < |r| ensures HasKey(d, r[j].0) {
        assert r[j] == d[j];
      }
    }
  }

  /** After `d[k] = v`, the key `k` maps to `v` and every other key is untouched. */
  lemma {:induction false} GetPut<K, V>(d: Dict<K, V>, k: K, v: V, k': K)
    requires Valid(d)
    ensures Valid(Put(d, k, v))
    ensures Get(Put(d, k, v), k') == if k' == k then Some(v) else Get(d, k')
  {
    if |d| > 0 && d[0].0 != k {
      GetPut(d[1..], k, v, k');
      var r := Put(d, k, v);
      assert r[1..] == Put(d[1..], k, v);
      if !HasKey(d, k) {
        assert r == d + [(k, v)];
      }
    }
  }

  /** A second `d[k] = w` overrides the first. */
  lemma {:induction false} PutTwice<K, V>(d: Dict<K, V>, k: K, v: V, w: V)
    ensures Put(Put(d, k, v), k, w) == Put(d, k, w)
  {
    if |d| > 0 && d[0].0 != k {
      PutTwice(d[1..], k, v, w);
      assert Put(d, k, v)[1..] == Put(d[1..], k, v);
    }
  }

  /** The value of the last entry for `k` in a list of pairs: the one a dictionary built
      from the list keeps. */
  function LastValue<K(==), V>(p: seq<(K, V)>, k: K): Option<V> {
    if |p| == 0 then None
    else if p[|p| - 1].0 == k then Some(p[|p| - 1].1)
    else LastValue(p[..|p| - 1], k)
  }

  /** A later list decides the last value wherever it has the key. */
  lemma {:induction false} LastValueAppend<K, V>(a: seq<(K, V)>, b: seq<(K, V)>, k: K)
    ensures LastValue(a + b, k) == if LastValue(b, k).Some? then LastValue(b, k) else LastValue(a, k)
    decreases |b|
  {
    if |b| > 0 {
      assert (a + b)[..|a + b| - 1] == a + b[..|b| - 1];
      LastValueAppend(a, b[..|b| - 1], k);
    } else {
      assert a + b == a;
    }
  }

  /** In pairs with distinct keys, the last value of a key is its only value. */
  lemma {:induction false} LastValueAt<K, V>(p: seq<(K, V)>, i: nat)
    requires i < |p| && Valid(p)
    ensures LastValue(p, p[i].0) == Some(p[i].1)
  {
    if i < |p| - 1 {
      LastValueAt(p[..|p| - 1], i);
    }
  }

  /** A key the pairs do not mention has no last value. */
  lemma {:induction false} LastValueAbsent<K, V>(p: seq<(K, V)>, k: K)
    requires !HasKey(p, k)
    ensures LastValue(p, k) == None
  {
    if |p| > 0 {
      LastValueAbsent(p[..|p| - 1], k);
    }
  }

  /** In a dictionary, looking a key up finds its last (and only) value. */
  lemma GetIsLastValue<K, V>(d: Dict<K, V>, k: K)
    requires Valid(d)
    ensures Get(d, k) == LastValue(d, k)
  {
    if HasKey(d, k) {
      var i :| 0 <= i < |d| && d[i].0 == k;
      LastValueAt(d, i);
    } else {
      LastValueAbsent(d, k);
    }
  }

  /** `d[k] = v` for a key already present replaces its value in place. */
  lemma {:induction false} PutAt<K, V>(d: Dict<K, V>, j: nat, v: V)
    requires Valid(d) && j < |d|
    ensures Put(d, d[j].0, v) == d[j := (d[j].0, v)]
  {
    if j > 0 {
      ValidTail(d);
      PutAt(d[1..], j - 1, v);
      PutPast(d, d[j].0, v);
      assert d[j := (d[j].0, v)] == [d[0]] + d[1..][j - 1 := (d[j].0, v)];
    } else {
      assert d[0 := (d[0].0, v)] == [(d[0].0, v)] + d[1..];
    }
  }

  /** Without its first pair a dictionary is still one. */
  lemma ValidTail<K, V>(d: Dict<K, V>)
    requires Valid(d) && |d| > 0
    ensures Valid(d[1..])
  {
    forall a, b | 0 <= a < b < |d| - 1 ensures d[1..][a].0 != d[1..][b].0 {
      assert d[1..][a] == d[a + 1] && d[1..][b] == d[b + 1];
    }
  }

  /** Putting a key the first pair does not hold leaves that pair alone. */
  lemma PutPast<K, V>(d: Dict<K, V>, k: K, v: V)
    requires |d| > 0 && d[0].0 != k
    ensures Put(d, k, v) == [d[0]] + Put(d[1..], k, v)
  {
  }

  /** `d[k] = v` for every pair of `p` in order; also `d | dict(p)`. */
  function PutAll<K(==), V>(d: Dict<K, V>, p: seq<(K, V)>): Dict<K, V> {
    if |p| == 0 then d else Put(PutAll(d, p[..|p| - 1]), p[|p| - 1].0, p[|p| - 1].1)
  }

  /** Putting one pair more. */
  lemma PutAllSnoc<K, V>(d: Dict<K, V>, p: seq<(K, V)>, e: (K, V))
    ensures PutAll(d, p + [e]) == Put(PutAll(d, p), e.0, e.1)
  {
    assert (p + [e])[..|p|] == p;
  }

  /** Putting a first pair, then the rest. */
  lemma PutAllCons<K, V>(d: Dict<K, V>, e: (K, V), p: seq<(K, V)>)
    ensures PutAll(d, [e] + p) == PutAll(Put(d, e.0, e.1), p)
  {
    PutAllAppend(d, [e], p);
    PutAllSnoc(d, [], e);
  }

  /** Putting two lists of pairs is putting their concatenation. */
  lemma {:induction false} PutAllAppend<K, V>(d: Dict<K, V>, a: seq<(K, V)>, b: seq<(K, V)>)
    ensures PutAll(d, a + b) == PutAll(PutAll(d, a), b)
    decreases |b|
  {
    if |b| == 0 {
      assert a + b == a;
    } else {
      var n := |b| - 1;
      assert a + b == (a + b[..n]) + [b[n]];
      PutAllSnoc(d, a + b[..n], b[n]);
      PutAllAppend(d, a, b[..n]);
      assert b == b[..n] + [b[n]];
      PutAllSnoc(PutAll(d, a), b[..n], b[n]);
    }
  }

  /** After putting every pair, a key holds its last value in the pairs, or its old value
      when the pairs do not mention it. */
  lemma {:induction false} GetPutAll<K, V>(d: Dict<K, V>, p: seq<(K, V)>, k: K)
    requires Valid(d)
    ensures Valid(PutAll(d, p))
    ensures Get(PutAll(d, p), k) == if LastValue(p, k).Some? then LastValue(p, k) else Get(d, k)
  {
    if |p| > 0 {
      var (k', v) := p[|p| - 1];
      GetPutAll(d, p[..|p| - 1], k);
      GetPut(PutAll(d, p[..|p| - 1]), k', v, k);
    }
  }

  /** Pairs whose keys are new and pairwise distinct each add one entry. */
  lemma {:induction false} PutAllFresh<K, V>(d: Dict<K, V>, p: seq<(K, V)>)
    requires forall i, j :: 0 <= i < j < |p| ==> p[i].0 != p[j].0
    requires forall i :: 0 <= i < |p| ==> !HasKey(d, p[i].0)
    ensures PutAll(d, p) == d + p
  {
    if |p| > 0 {
      var n := |p| - 1;
      var q, e := p[..n], p[n];
      forall i, j | 0 <= i < j < |q|
        ensures q[i].0 != q[j].0
      {
        assert q[i] == p[i] && q[j] == p[j];
      }
      forall i | 0 <= i < |q|
        ensures !HasKey(d, q[i].0) && q[i].0 != e.0
      {
        assert q[i] == p[i];
      }
      PutAllFresh(d, q);
      AbsentFromBoth(d, q, e.0);
      assert PutAll(d, p) == Put(d + q, e.0, e.1);
      Seqs.InitLast(p);
      Seqs.AppendSnoc(d, q, e);
    }
  }

  /** A key in neither of two lists of pairs is in neither's concatenation. */
  lemma AbsentFromBoth<K, V>(d: Dict<K, V>, q: seq<(K, V)>, k: K)
    requires !HasKey(d, k) && forall i :: 0 <= i < |q| ==> q[i].0 != k
    ensures !HasKey(d + q, k)
  {
    forall i | 0 <= i < |d + q| ensures (d + q)[i].0 != k {
      if i >= |d| {
        assert (d + q)[i] == q[i - |d|];
      }
    }
  }

  // ---------------------------------------------------------------- sort_keys

  /** Integer keys in strictly ascending order. */
  predicate KeysAscending<V>(d: Dict<int, V>) {
    forall i, j :: 0 <= i < j < |d| ==> d[i].0 < d[j].0
  }

  /** An entry inserted before the first entry whose key is not smaller. */
  function InsertByKey<V>(e: (int, V), d: Dict<int, V>): (r: Dict<int, V>)
    ensures |r| == |d| + 1 && multiset(r) == multiset(d) + multiset{e}
  {
    if |d| == 0 || e.0 <= d[0].0 then [e] + d
    else
      assert d == [d[0]] + d[1..];
      [d[0]] + InsertByKey(e, d[1..])
  }

  /** `sorted(d.items())`, as `json.dumps(sort_keys=True)` orders a dictionary: by key, and
      since the keys are distinct, by key alone. */
  function SortByKey<V>(d: Dict<int, V>): (r: Dict<int, V>)
    ensures |r| == |d| && multiset(r) == multiset(d)
  {
    if |d| == 0 then []
    else
      assert d == [d[0]] + d[1..];
      InsertByKey(d[0], SortByKey(d[1..]))
  }

  lemma {:induction false} InsertByKeyAscending<V>(e: (int, V), d: Dict<int, V>)
    requires KeysAscending(d) && !HasKey(d, e.0)
    ensures KeysAscending(InsertByKey(e, d))
  {
    if |d| > 0 && e.0 > d[0].0 {
      var t := InsertByKey(e, d[1..]);
      InsertByKeyAscending(e, d[1..]);
      forall k | 0 <= k < |t| ensures d[0].0 < t[k].0 {
        assert t[k] in multiset(t);
        if t[k] != e {
          assert t[k] in multiset(d[1..]);
          var m :| 0 <= m < |d[1..]| && d[1..][m] == t[k];
          assert d[m + 1] == t[k];
        }
      }
    }
  }

  /** The sorted dictionary holds its keys in strictly ascending order, so it is a
      dictionary again. */
  lemma {:induction false} SortByKeyAscending<V>(d: Dict<int, V>)
    requires Valid(d)
    ensures KeysAscending(SortByKey(d)) && Valid(SortByKey(d))
  {
    if |d| > 0 {
      ValidTail(d);
      SortByKeyAscending(d[1..]);
      var t := SortByKey(d[1..]);
      forall k | 0 <= k < |t| ensures t[k].0 != d[0].0 {
        assert t[k] in multiset(d[1..]);
        var m :| 0 <= m < |d[1..]| && d[1..][m] == t[k];
        assert d[m + 1] == t[k];
      }
      InsertByKeyAscending(d[0], t);
    }
  }

  /** Two dictionaries holding the same entries give the same answer for every key. */
  lemma SameEntriesSameGet<K, V>(a: Dict<K, V>, b: Dict<K, V>, k: K)
    requires Valid(a) && Valid(b) && multiset(a) == multiset(b)
    ensures Get(a, k) == Get(b, k)
  {
    if HasKey(b, k) {
      var j :| 0 <= j < |b| && b[j].0 == k;
      assert b[j] in multiset(a);
      var i :| 0 <= i < |a| && a[i] == b[j];
      assert HasKey(a, k);
    }
    if HasKey(a, k) {
      var i :| 0 <= i < |a| && a[i].0 == k;
      assert a[i] in multiset(b);
      var j :| 0 <= j < |b| && b[j] == a[i];
      assert HasKey(b, k);
      var x :| 0 <= x < |a| && a[x] == (k, Get(a, k).value);
      var y :| 0 <= y < |b| && b[y] == (k, Get(b, k).value);
      assert b[y] in multiset(a);
      var y' :| 0 <= y' < |a| && a[y'] == b[y];
    }
  }

  /** Sorting a dictionary by key changes the order of its entries and nothing else. */
  lemma SortByKeyGet<V>(d: Dict<int, V>, k: int)
    requires Valid(d)
    ensures Get(SortByKey(d), k) == Get(d, k)
  {
    SortByKeyAscending(d);
    SameEntriesSameGet(SortByKey(d), d, k);
  }
}
