/**
 * Sorting text the way Python's `sorted` does: lexicographically by code point. The sorted
 * form of a collection depends only on its multiset of elements.
 *
 * And sorting text the way JavaScript's `Array.prototype.sort(compare)` does: stably, by a
 * comparator that answers negative, zero or positive. `localeCompare` is such a comparator;
 * the model keeps it a parameter. Its order is a total preorder, but it ties distinct texts
 * (canonically equivalent ones, such as "\U{e9}" and "e\U{301}"), and a stable sort keeps
 * tied texts in arrival order, so the sorted form forgets the arrival order only when no
 * two distinct texts present tie.
 */
module Sorting {
  import opened Seqs

  /** `a <= b` on Python `str`: lexicographic by code point, a proper prefix first. */
  predicate Below(a: string, b: string) {
    |a| == 0 || (|b| > 0 && (a[0] < b[0] || (a[0] == b[0] && Below(a[1..], b[1..]))))
  }

  lemma {:induction false} BelowTotal(a: string, b: string)
    ensures Below(a, b) || Below(b, a)
  {
    if |a| > 0 && |b| > 0 && a[0] == b[0] {
      BelowTotal(a[1..], b[1..]);
    }
  }

  lemma {:induction false} BelowReflexive(a: string)
    ensures Below(a, a)
  {
    if |a| > 0 {
      BelowReflexive(a[1..]);
    }
  }

  lemma {:induction false} BelowAntisymmetric(a: string, b: string)
    requires Below(a, b) && Below(b, a)
    ensures a == b
  {
    if |a| > 0 && |b| > 0 {
      BelowAntisymmetric(a[1..], b[1..]);
      assert a == [a[0]] + a[1..] && b == [b[0]] + b[1..];
    }
  }

  lemma {:induction false} BelowTransitive(a: string, b: string, c: string)
    requires Below(a, b) && Below(b, c)
    ensures Below(a, c)
  {
    if |a| > 0 && a[0] == b[0] && b[0] == c[0] {
      BelowTransitive(a[1..], b[1..], c[1..]);
    }
  }

  predicate Sorted(s: seq<string>) {
    forall i, j :: 0 <= i < j < |s| ==> Below(s[i], s[j])
  }

  /** Inserting `x` before the first element above it. */
  function Insert(x: string, s: seq<string>): (r: seq<string>)
    requires Sorted(s)
    ensures Sorted(r)
    ensures |r| == |s| + 1
    ensures multiset(r) == multiset(s) + multiset{x}
  {
    if |s| == 0 then [x]
    else if Below(x, s[0]) then
      forall j | 0 < j < |s| ensures Below(x, s[j]) { BelowTransitive(x, s[0], s[j]); }
      [x] + s
    else
      BelowTotal(x, s[0]);
      var t := Insert(x, s[1..]);
      assert s == [s[0]] + s[1..];
      forall k | 0 <= k < |t| ensures Below(s[0], t[k]) {
        assert t[k] in multiset(t);
        if t[k] != x {
          assert t[k] in multiset(s[1..]);
          var m :| 0 <= m < |s[1..]| && s[1..][m] == t[k];
          assert s[m + 1] == t[k];
        }
      }
      [s[0]] + t
  }

  /** Python `sorted(s)` on a list of `str`. */
  function Sort(s: seq<string>): (r: seq<string>)
    ensures Sorted(r)
    ensures |r| == |s|
    ensures multiset(r) == multiset(s)
  {
    if |s| == 0 then []
    else
      assert s == [s[0]] + s[1..];
      Insert(s[0], Sort(s[1..]))
  }

  /** The head of a sorted sequence is below every element of it. */
  lemma SortedHeadBelow(a: seq<string>, x: string)
    requires Sorted(a) && x in a
    ensures Below(a[0], x)
  {
    var i :| 0 <= i < |a| && a[i] == x;
    if i == 0 {
      BelowReflexive(x);
    }
  }

  /** Two sorted sequences with the same elements are equal. */
  lemma {:induction false} SortedUnique(a: seq<string>, b: seq<string>)
    requires Sorted(a) && Sorted(b) && multiset(a) == multiset(b)
    ensures a == b
    decreases |a|
  {
    if |a| > 0 {
      SortedHeads(a, b);
      TailsPermutation(a, b);
      SortedTail(a);
      SortedTail(b);
      SortedUnique(a[1..], b[1..]);
      SameHeadSameTail(a, b);
    }
  }

  lemma SortedTail(a: seq<string>)
    requires Sorted(a) && |a| > 0
    ensures Sorted(a[1..])
  {
    forall i, j | 0 <= i < j < |a| - 1 ensures Below(a[1..][i], a[1..][j]) {
      assert a[1..][i] == a[i + 1] && a[1..][j] == a[j + 1];
    }
  }

  /** Sequences with the same elements and the same first element have the same elements
      after it. */
  lemma TailsPermutation<T>(a: seq<T>, b: seq<T>)
    requires |a| > 0 && |b| > 0 && a[0] == b[0] && multiset(a) == multiset(b)
    ensures multiset(a[1..]) == multiset(b[1..])
  {
    RemoveMatch(a, b, 0);
    assert b[..0] + b[1..] == b[1..];
  }

  lemma SameHeadSameTail<T>(a: seq<T>, b: seq<T>)
    requires |a| > 0 && |b| > 0 && a[0] == b[0] && a[1..] == b[1..]
    ensures a == b
  {
    assert a == [a[0]] + a[1..] && b == [b[0]] + b[1..];
  }

  /** Two nonempty sorted sequences with the same elements start alike. */
  lemma SortedHeads(a: seq<string>, b: seq<string>)
    requires Sorted(a) && Sorted(b) && multiset(a) == multiset(b) && |a| > 0
    ensures |b| > 0 && a[0] == b[0]
  {
    assert |b| == |multiset(b)| == |a|;
    assert a[0] in multiset(b) && b[0] in multiset(a);
    SortedHeadBelow(b, a[0]);
    SortedHeadBelow(a, b[0]);
    BelowAntisymmetric(a[0], b[0]);
  }

  /** The sorted form forgets the order it was given in. */
  lemma SortPermutationInvariant(a: seq<string>, b: seq<string>)
    requires multiset(a) == multiset(b)
    ensures Sort(a) == Sort(b)
  {
    SortedUnique(Sort(a), Sort(b));
  }

  // ---------------------------------------------------------------- comparator sorts

  /** A comparator as `Array.prototype.sort` takes it: negative, zero or positive. */
  type Comparator = (string, string) -> int

  /** `a` may stand before `b`: the comparator does not put it after. */
  predicate NotAfter(compare: Comparator, a: string, b: string) {
    compare(a, b) <= 0
  }

  /** A consistent comparator, as the sort requires: any two texts compare one way or the
      other, and the order is transitive. */
  ghost predicate Consistent(compare: Comparator) {
    && (forall a: string, b: string :: NotAfter(compare, a, b) || NotAfter(compare, b, a))
    && (forall a: string, b: string, c: string :: NotAfter(compare, a, b) && NotAfter(compare, b, c) ==> NotAfter(compare, a, c))
  }

  /** Texts of `s` that tie are equal: the comparator separates the texts present. */
  predicate Separates(compare: Comparator, s: seq<string>) {
    forall i, j :: 0 <= i < |s| && 0 <= j < |s| && NotAfter(compare, s[i], s[j]) && NotAfter(compare, s[j], s[i]) ==> s[i] == s[j]
  }

  predicate SortedBy(compare: Comparator, s: seq<string>) {
    forall i, j :: 0 <= i < j < |s| ==> NotAfter(compare, s[i], s[j])
  }

  /** Stable insertion of a later element: after every element not above it. */
  function InsertBy(compare: Comparator, x: string, s: seq<string>): (r: seq<string>)
    ensures |r| == |s| + 1
    ensures multiset(r) == multiset(s) + multiset{x}
  {
    if |s| == 0 then [x]
    else if !NotAfter(compare, s[0], x) then [x] + s
    else
      assert s == [s[0]] + s[1..];
      [s[0]] + InsertBy(compare, x, s[1..])
  }

  /** `s.sort(compare)`: the elements inserted in arrival order. */
  function SortBy(compare: Comparator, s: seq<string>): (r: seq<string>)
    ensures |r| == |s|
    ensures multiset(r) == multiset(s)
  {
    if |s| == 0 then []
    else
      assert s == s[..|s| - 1] + [s[|s| - 1]];
      InsertBy(compare, s[|s| - 1], SortBy(compare, s[..|s| - 1]))
  }

  lemma {:induction false} InsertBySorted(compare: Comparator, x: string, s: seq<string>)
    requires Consistent(compare) && SortedBy(compare, s)
    ensures SortedBy(compare, InsertBy(compare, x, s))
  {
    if |s| > 0 {
      if !NotAfter(compare, s[0], x) {
        assert NotAfter(compare, x, s[0]);
        forall j | 0 < j < |s| ensures NotAfter(compare, x, s[j]) {
          assert NotAfter(compare, s[0], s[j]);
        }
      } else {
        var t := InsertBy(compare, x, s[1..]);
        assert SortedBy(compare, s[1..]) by {
          forall i, j | 0 <= i < j < |s| - 1 ensures NotAfter(compare, s[1..][i], s[1..][j]) {
            assert s[1..][i] == s[i + 1] && s[1..][j] == s[j + 1];
          }
        }
        InsertBySorted(compare, x, s[1..]);
        forall k | 0 <= k < |t| ensures NotAfter(compare, s[0], t[k]) {
          assert t[k] in multiset(t);
          if t[k] != x {
            assert t[k] in multiset(s[1..]);
            var m :| 0 <= m < |s[1..]| && s[1..][m] == t[k];
            assert s[m + 1] == t[k];
          }
        }
      }
    }
  }

  /** With a consistent comparator the result is in order. */
  lemma {:induction false} SortBySorted(compare: Comparator, s: seq<string>)
    requires Consistent(compare)
    ensures SortedBy(compare, SortBy(compare, s))
  {
    if |s| > 0 {
      SortBySorted(compare, s[..|s| - 1]);
      InsertBySorted(compare, s[|s| - 1], SortBy(compare, s[..|s| - 1]));
    }
  }

  /** Separation depends only on the texts present. */
  lemma SeparatesPermutation(compare: Comparator, a: seq<string>, b: seq<string>)
    requires multiset(a) == multiset(b) && Separates(compare, a)
    ensures Separates(compare, b)
  {
    forall i, j | 0 <= i < |b| && 0 <= j < |b| && NotAfter(compare, b[i], b[j]) && NotAfter(compare, b[j], b[i])
      ensures b[i] == b[j]
    {
      assert b[i] in multiset(a) && b[j] in multiset(a);
      var i' :| 0 <= i' < |a| && a[i'] == b[i];
      var j' :| 0 <= j' < |a| && a[j'] == b[j];
    }
  }

  /** Two sequences in order whose texts are the same and pairwise separated are equal. */
  lemma {:induction false} SortedByUnique(compare: Comparator, a: seq<string>, b: seq<string>)
    requires SortedBy(compare, a) && SortedBy(compare, b) && multiset(a) == multiset(b) && Separates(compare, a)
    ensures a == b
    decreases |a|
  {
    if |a| > 0 {
      assert |b| == |multiset(b)| == |a|;
      assert a[0] in multiset(b) && b[0] in multiset(a);
      var i :| 0 <= i < |b| && b[i] == a[0];
      var j :| 0 <= j < |a| && a[j] == b[0];
      assert NotAfter(compare, b[0], b[i]) || i == 0;
      assert NotAfter(compare, a[0], a[j]) || j == 0;
      assert a[0] == b[0];
      TailsPermutation(a, b);
      assert SortedBy(compare, a[1..]) by {
        forall i, j | 0 <= i < j < |a| - 1 ensures NotAfter(compare, a[1..][i], a[1..][j]) {
          assert a[1..][i] == a[i + 1] && a[1..][j] == a[j + 1];
        }
      }
      assert SortedBy(compare, b[1..]) by {
        forall i, j | 0 <= i < j < |b| - 1 ensures NotAfter(compare, b[1..][i], b[1..][j]) {
          assert b[1..][i] == b[i + 1] && b[1..][j] == b[j + 1];
        }
      }
      assert Separates(compare, a[1..]) by {
        forall i, j | 0 <= i < |a| - 1 && 0 <= j < |a| - 1 ensures a[1..][i] == a[i + 1] && a[1..][j] == a[j + 1] {
        }
      }
      SortedByUnique(compare, a[1..], b[1..]);
      SameHeadSameTail(a, b);
    }
  }

  /** With a consistent comparator that separates the texts present, the sorted form
      forgets the arrival order. */
  lemma SortByPermutationInvariant(compare: Comparator, a: seq<string>, b: seq<string>)
    requires Consistent(compare) && multiset(a) == multiset(b) && Separates(compare, a)
    ensures SortBy(compare, a) == SortBy(compare, b)
  {
    SortBySorted(compare, a);
    SortBySorted(compare, b);
    SeparatesPermutation(compare, a, SortBy(compare, a));
    SortedByUnique(compare, SortBy(compare, a), SortBy(compare, b));
  }

  /** Without separation it does not: texts the comparator ties stay in arrival order. */
  lemma {:induction false} TiesKeepArrivalOrder(compare: Comparator, s: seq<string>)
    requires forall i, j :: 0 <= i < |s| && 0 <= j < |s| ==> compare(s[i], s[j]) == 0
    ensures SortBy(compare, s) == s
  {
    if |s| > 0 {
      var p := s[..|s| - 1];
      TiesKeepArrivalOrder(compare, p);
      TiesAppend(compare, s[|s| - 1], p);
      assert p + [s[|s| - 1]] == s;
    }
  }

  lemma {:induction false} TiesAppend(compare: Comparator, x: string, s: seq<string>)
    requires forall i :: 0 <= i < |s| ==> compare(s[i], x) == 0
    ensures InsertBy(compare, x, s) == s + [x]
  {
    if |s| > 0 {
      TiesAppend(compare, x, s[1..]);
      assert s == [s[0]] + s[1..];
    }
  }

  /** A comparator that ties "\U{e9}" with "e\U{301}", as canonical equivalence does, sorts
      the two in either order they arrive. */
  lemma TiedTextsFollowArrival()
    ensures var tie: Comparator := (a: string, b: string) => 0;
      SortBy(tie, ["\U{e9}", "e\U{301}"]) != SortBy(tie, ["e\U{301}", "\U{e9}"])
  {
    var tie: Comparator := (a: string, b: string) => 0;
    TiesKeepArrivalOrder(tie, ["\U{e9}", "e\U{301}"]);
    TiesKeepArrivalOrder(tie, ["e\U{301}", "\U{e9}"]);
    assert ["\U{e9}", "e\U{301}"][0] != ["e\U{301}", "\U{e9}"][0];
  }
}
