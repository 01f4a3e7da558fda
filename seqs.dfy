/** Sequence helpers: element-wise images, distinct counts and sums. */
module Seqs {

  /** `[f(x) for x in s]` / `s.map(f)`. */
  function Map<T, U>(f: T -> U, s: seq<T>): (r: seq<U>)
    ensures |r| == |s|
  {
    if |s| == 0 then [] else [f(s[0])] + Map(f, s[1..])
  }

  lemma {:induction false} MapIndex<T, U>(f: T -> U, s: seq<T>)
    ensures forall i :: 0 <= i < |s| ==> Map(f, s)[i] == f(s[i])
  {
    if |s| > 0 {
      MapIndex(f, s[1..]);
      assert forall i :: 1 <= i < |s| ==> Map(f, s)[i] == Map(f, s[1..])[i - 1];
    }
  }

  lemma {:induction false} MapAppend<T, U>(f: T -> U, a: seq<T>, b: seq<T>)
    ensures Map(f, a + b) == Map(f, a) + Map(f, b)
  {
    if |a| == 0 {
      assert a + b == b;
    } else {
      assert (a + b)[0] == a[0] && (a + b)[1..] == a[1..] + b;
      MapAppend(f, a[1..], b);
    }
  }

  /** Mapping one element more of a prefix. */
  lemma MapSnoc<T, U>(f: T -> U, s: seq<T>, i: nat)
    requires i < |s|
    ensures Map(f, s[..i + 1]) == Map(f, s[..i]) + [f(s[i])]
  {
    assert s[..i + 1] == s[..i] + [s[i]];
    MapAppend(f, s[..i], [s[i]]);
    assert Map(f, [s[i]]) == [f(s[i])] + Map(f, []);
  }

  /** Mapping a prefix is the prefix of the mapping. */
  lemma MapTake<T, U>(f: T -> U, s: seq<T>, k: nat)
    requires k <= |s|
    ensures Map(f, s[..k]) == Map(f, s)[..k]
  {
    assert s == s[..k] + s[k..];
    MapAppend(f, s[..k], s[k..]);
  }

  /** A shorter prefix of a mapped prefix is the mapped shorter prefix. */
  lemma MapTakeOfTake<T, U>(f: T -> U, s: seq<T>, i: nat, m: nat)
    requires i <= m <= |s|
    ensures Map(f, s[..m])[..i] == Map(f, s[..i])
  {
    MapTake(f, s[..m], i);
    assert s[..m][..i] == s[..i];
  }

  lemma TakeDrop<T>(s: seq<T>, i: nat)
    requires i <= |s|
    ensures s[..i] + s[i..] == s
  {
  }

  /** A non-empty sequence is its front followed by its last element. */
  lemma InitLast<T>(s: seq<T>)
    requires |s| > 0
    ensures s == s[..|s| - 1] + [s[|s| - 1]]
  {
  }

  lemma SliceSplit<T>(s: seq<T>, i: nat, j: nat)
    requires i <= j <= |s|
    ensures s == s[..i] + s[i..j] + s[j..]
  {
  }

  /** Taking past the end of the first part keeps it whole. */
  lemma TakeAppend<T>(a: seq<T>, b: seq<T>, r: nat)
    requires r <= |b|
    ensures (a + b)[..|a| + r] == a + b[..r]
  {
  }

  /** Taking no further than the first part takes only from it. */
  lemma TakeLeft<T>(a: seq<T>, b: seq<T>, r: nat)
    requires r <= |a|
    ensures (a + b)[..r] == a[..r]
  {
  }

  /** A slice that is a concatenation splits where its first part ends. */
  lemma SliceConcat<T>(s: seq<T>, lo: nat, hi: nat, a: seq<T>, b: seq<T>)
    requires lo <= hi <= |s| && s[lo..hi] == a + b
    ensures lo + |a| <= hi && s[lo..lo + |a|] == a && s[lo + |a|..hi] == b
  {
    assert s[lo..lo + |a|] == s[lo..hi][..|a|];
    assert s[lo + |a|..hi] == s[lo..hi][|a|..];
  }

  /** Removing the element at `j` removes one copy of it from the multiset. */
  lemma MultisetRemove<T>(s: seq<T>, j: nat)
    requires j < |s|
    ensures multiset(s) == multiset(s[..j] + s[j + 1..]) + multiset{s[j]}
  {
    assert s == s[..j] + [s[j]] + s[j + 1..];
  }

  lemma MultisetCancel<T>(x: multiset<T>, y: multiset<T>, e: T)
    requires x + multiset{e} == y + multiset{e}
    ensures x == y
  {
    forall z ensures x[z] == y[z] {
      assert (x + multiset{e})[z] == (y + multiset{e})[z];
    }
  }

  /** Rearranging the elements rearranges their images in the same way. */
  lemma {:induction false} MapPermutation<T, U>(f: T -> U, a: seq<T>, b: seq<T>)
    requires multiset(a) == multiset(b)
    ensures multiset(Map(f, a)) == multiset(Map(f, b))
    decreases |a|
  {
    if |a| > 0 {
      assert a[0] in multiset(b);
      var j :| 0 <= j < |b| && b[j] == a[0];
      var b' := b[..j] + b[j + 1..];
      RemoveMatch(a, b, j);
      MapPermutation(f, a[1..], b');
      MapRemove(f, b, j);
      MapCons(f, a);
    }
  }

  /** Taking the first element off one side and a copy of it off the other keeps two
      permutations permutations. */
  lemma RemoveMatch<T>(a: seq<T>, b: seq<T>, j: nat)
    requires |a| > 0 && j < |b| && b[j] == a[0] && multiset(a) == multiset(b)
    ensures multiset(a[1..]) == multiset(b[..j] + b[j + 1..])
  {
    MultisetRemove(b, j);
    assert a == [a[0]] + a[1..];
    MultisetCancel(multiset(a[1..]), multiset(b[..j] + b[j + 1..]), a[0]);
  }

  /** The images of a nonempty sequence, as a multiset: the first image and the rest. */
  lemma MapCons<T, U>(f: T -> U, s: seq<T>)
    requires |s| > 0
    ensures multiset(Map(f, s)) == multiset(Map(f, s[1..])) + multiset{f(s[0])}
  {
    assert Map(f, s) == [f(s[0])] + Map(f, s[1..]);
  }

  /** Regrouping four concatenated parts. */
  lemma Regroup<T>(a: seq<T>, b: seq<T>, c: seq<T>, d: seq<T>)
    ensures a + (b + c) + d == a + b + (c + d)
  {
  }

  /** Appending one element after a concatenation appends it to the second part. */
  lemma AppendSnoc<T>(a: seq<T>, b: seq<T>, x: T)
    ensures a + b + [x] == a + (b + [x])
  {
  }

  lemma MultisetMiddle<T>(p: seq<T>, x: T, q: seq<T>)
    ensures multiset(p + [x] + q) == multiset(p + q) + multiset{x}
  {
  }

  /** The images with the one at `j` removed, as a multiset. */
  lemma MapRemove<T, U>(f: T -> U, s: seq<T>, j: nat)
    requires j < |s|
    ensures multiset(Map(f, s)) == multiset(Map(f, s[..j] + s[j + 1..])) + multiset{f(s[j])}
  {
    var p, q := s[..j], s[j + 1..];
    assert s == p + [s[j]] + q;
    MapAppend(f, p + [s[j]], q);
    MapAppend(f, p, [s[j]]);
    MapAppend(f, p, q);
    assert Map(f, [s[j]]) == [f(s[j])];
    MultisetMiddle(Map(f, p), f(s[j]), Map(f, q));
  }

  /** The number of leading elements that do not satisfy `p`: the index of the first that does, or the length. */
  function FirstWhere<T>(p: T -> bool, s: seq<T>): (n: nat)
    ensures n <= |s|
    ensures forall k :: 0 <= k < n ==> !p(s[k])
    ensures n < |s| ==> p(s[n])
  {
    if |s| == 0 || p(s[0]) then 0
    else
      assert forall k :: 1 <= k < |s| ==> s[k] == s[1..][k - 1];
      1 + FirstWhere(p, s[1..])
  }

  /** Elements after the first one satisfying `p` do not move it. */
  lemma FirstWhereAppend<T>(p: T -> bool, s: seq<T>, k: nat, more: seq<T>)
    requires k < |s| && p(s[k])
    ensures FirstWhere(p, s + more) == FirstWhere(p, s)
  {
    var all := s + more;
    var m := FirstWhere(p, s);
    assert all[m] == s[m];
    assert forall j :: 0 <= j < m ==> all[j] == s[j];
  }

  /** The number of distinct elements, Python `len(set(s))`. */
  function CountDistinct<T(==)>(s: seq<T>): nat {
    |set x | x in s|
  }

  /** There are never more distinct elements than elements. */
  lemma {:induction false} CountDistinctBound<T>(s: seq<T>)
    ensures CountDistinct(s) <= |s|
    ensures |s| > 0 ==> CountDistinct(s) >= 1
  {
    if |s| > 0 {
      var rest := set x | x in s[1..];
      assert (set x | x in s) == rest + {s[0]};
      CountDistinctBound(s[1..]);
    }
  }

  /** Every element distinct, so the distinct count is the length. */
  predicate NoDuplicates<T(==)>(s: seq<T>) {
    forall i, j :: 0 <= i < j < |s| ==> s[i] != s[j]
  }

  lemma {:induction false} CountDistinctOfNoDuplicates<T>(s: seq<T>)
    requires NoDuplicates(s)
    ensures CountDistinct(s) == |s|
  {
    if |s| > 0 {
      var rest := set x | x in s[1..];
      assert (set x | x in s) == rest + {s[0]};
      assert s[0] !in rest;
      CountDistinctOfNoDuplicates(s[1..]);
    }
  }

  /** A repeated element makes the distinct count smaller than the length. */
  lemma {:induction false} CountDistinctOfDuplicate<T>(s: seq<T>, i: nat, j: nat)
    requires i < j < |s| && s[i] == s[j]
    ensures CountDistinct(s) < |s|
  {
    var t := s[..j] + s[j + 1..];
    assert (set x | x in s) == (set x | x in t) by {
      assert s == s[..j] + [s[j]] + s[j + 1..];
      assert s[j] == t[i];
    }
    CountDistinctBound(t);
  }

  /** The same elements, in any order and multiplicity-preserving, have the same distinct count. */
  lemma CountDistinctPermutation<T>(a: seq<T>, b: seq<T>)
    requires multiset(a) == multiset(b)
    ensures CountDistinct(a) == CountDistinct(b)
  {
    assert forall x :: x in a <==> x in multiset(a);
    assert forall x :: x in b <==> x in multiset(b);
    assert (set x | x in a) == (set x | x in b);
  }

  function Sum(s: seq<int>): int {
    if |s| == 0 then 0 else Sum(s[..|s| - 1]) + s[|s| - 1]
  }

  function Last<T>(s: seq<T>): T
    requires |s| > 0
  {
    s[|s| - 1]
  }

  /** The successive differences of `start, t0, t1, …`: the interval list the data handlers build. */
  function Intervals(start: int, times: seq<int>): (r: seq<int>)
    ensures |r| == |times|
  {
    if |times| == 0 then []
    else
      var prev := if |times| == 1 then start else times[|times| - 2];
      Intervals(start, times[..|times| - 1]) + [times[|times| - 1] - prev]
  }

  /** The intervals telescope: their sum is the time of the last event minus the start. */
  lemma {:induction false} IntervalsSum(start: int, times: seq<int>)
    ensures Sum(Intervals(start, times)) == (if |times| == 0 then 0 else Last(times) - start)
  {
    if |times| > 0 {
      var init := times[..|times| - 1];
      IntervalsSum(start, init);
      assert Intervals(start, times)[..|times| - 1] == Intervals(start, init);
      if |times| > 1 {
        assert Last(init) == times[|times| - 2];
      }
    }
  }

  /** The lists `f` gives for each of `xs`, concatenated. */
  function Flattened<X, S>(f: X -> seq<S>, xs: seq<X>): seq<S> {
    if |xs| == 0 then [] else Flattened(f, xs[..|xs| - 1]) + f(xs[|xs| - 1])
  }

  /** A value is in the concatenation exactly when it is in one of the lists. */
  lemma {:induction false} FlattenedMembers<X, S>(f: X -> seq<S>, xs: seq<X>, s: S)
    ensures s in Flattened(f, xs) <==> exists i :: 0 <= i < |xs| && s in f(xs[i])
  {
    if |xs| > 0 {
      var n := |xs|;
      var p := xs[..n - 1];
      FlattenedMembers(f, p, s);
      if s in Flattened(f, p) {
        var i :| 0 <= i < |p| && s in f(p[i]);
        assert xs[i] == p[i];
      }
      if exists i :: 0 <= i < n && s in f(xs[i]) {
        var i :| 0 <= i < n && s in f(xs[i]);
        if i < n - 1 {
          assert xs[i] == p[i];
        }
      }
    }
  }

  /** Flattening distributes over concatenation. */
  lemma {:induction false} FlattenedAppend<X, S>(f: X -> seq<S>, a: seq<X>, b: seq<X>)
    ensures Flattened(f, a + b) == Flattened(f, a) + Flattened(f, b)
    decreases |b|
  {
    if |b| > 0 {
      var c := b[..|b| - 1];
      assert (a + b)[..|a + b| - 1] == a + c;
      assert (a + b)[|a + b| - 1] == b[|b| - 1];
      FlattenedAppend(f, a, c);
      assert Flattened(f, a) + Flattened(f, c) + f(b[|b| - 1]) == Flattened(f, a) + (Flattened(f, c) + f(b[|b| - 1]));
    } else {
      assert a + b == a;
    }
  }

  lemma FlattenedSnoc<X, S>(f: X -> seq<S>, xs: seq<X>, i: nat)
    requires i < |xs|
    ensures Flattened(f, xs[..i + 1]) == Flattened(f, xs[..i]) + f(xs[i])
  {
    assert xs[..i + 1][..i] == xs[..i];
  }
}
