/**
 * The Python and JavaScript string operations the benchmark harness relies on,
 * over `string` (a sequence of Unicode scalar values).
 */
module Strings {
  import opened Wrappers
  import opened Seqs

  // ---------------------------------------------------------------- whitespace

  /** Python's `str.isspace()` for a single character. */
  predicate IsSpace(c: char) {
    c in Whitespace
  }

  /** The characters for which Python's `str.isspace()` holds. */
  const Whitespace: set<char> := {
    '\U{9}', '\U{A}', '\U{B}', '\U{C}', '\U{D}', '\U{1C}', '\U{1D}', '\U{1E}', '\U{1F}', '\U{20}',
    '\U{85}', '\U{A0}', '\U{1680}', '\U{2000}', '\U{2001}', '\U{2002}', '\U{2003}', '\U{2004}',
    '\U{2005}', '\U{2006}', '\U{2007}', '\U{2008}', '\U{2009}', '\U{200A}', '\U{2028}', '\U{2029}',
    '\U{202F}', '\U{205F}', '\U{3000}'
  }

  predicate AllSpace(s: string) {
    forall i :: 0 <= i < |s| ==> IsSpace(s[i])
  }

  /** Neither end of `s` is whitespace. */
  predicate IsStripped(s: string) {
    |s| == 0 || (!IsSpace(s[0]) && !IsSpace(s[|s| - 1]))
  }

  /** The length of the longest all-whitespace prefix. */
  function LeadingSpaces(s: string): (n: nat)
    ensures n <= |s| && AllSpace(s[..n])
    ensures n < |s| ==> !IsSpace(s[n])
  {
    if |s| > 0 && IsSpace(s[0]) then
      var m := LeadingSpaces(s[1..]);
      assert s[..m + 1] == [s[0]] + s[1..][..m];
      m + 1
    else 0
  }

  /** The length of the longest all-whitespace suffix. */
  function TrailingSpaces(s: string): (n: nat)
    ensures n <= |s| && AllSpace(s[|s| - n..])
    ensures n < |s| ==> !IsSpace(s[|s| - n - 1])
  {
    if |s| > 0 && IsSpace(s[|s| - 1]) then
      var p := s[..|s| - 1];
      var m := TrailingSpaces(p);
      assert s[|s| - (m + 1)..] == p[|p| - m..] + [s[|s| - 1]];
      m + 1
    else 0
  }

  /** Python `s.strip()`. */
  function Strip(s: string): (r: string)
    ensures |r| <= |s|
  {
    var i := LeadingSpaces(s);
    s[i..|s| - TrailingSpaces(s[i..])]
  }

  /** `strip` removes only surrounding whitespace, and all of it: the text is some whitespace,
      the stripped text, and some more whitespace. */
  lemma StripSpec(s: string)
    ensures IsStripped(Strip(s))
    ensures var L := LeadingSpaces(s); var r := Strip(s);
      L + |r| <= |s| && s == s[..L] + r + s[L + |r|..]
      && AllSpace(s[..L]) && AllSpace(s[L + |r|..])
  {
    StripEnds(s);
    StripDecomposes(s);
    StripTrailer(s);
  }

  lemma StripEnds(s: string)
    ensures IsStripped(Strip(s))
  {
    var i := LeadingSpaces(s);
    var t := s[i..];
    var j := TrailingSpaces(t);
    var r := Strip(s);
    assert r == t[..|t| - j];
    if |r| > 0 {
      assert j < |t| && r[0] == t[0] && t[0] == s[i];
      assert !IsSpace(r[0]);
      assert r[|r| - 1] == t[|t| - j - 1];
      assert !IsSpace(r[|r| - 1]);
    }
  }

  lemma StripDecomposes(s: string)
    ensures var L := LeadingSpaces(s); var r := Strip(s);
      L + |r| <= |s| && s == s[..L] + r + s[L + |r|..]
  {
    var i := LeadingSpaces(s);
    SliceSplit(s, i, |s| - TrailingSpaces(s[i..]));
  }

  lemma StripTrailer(s: string)
    ensures var L := LeadingSpaces(s); var r := Strip(s);
      L + |r| <= |s| && AllSpace(s[L + |r|..])
  {
    var i := LeadingSpaces(s);
    var t := s[i..];
    var j := TrailingSpaces(t);
    var r := Strip(s);
    assert |r| == |t| - j;
    assert i + |r| == |s| - j;
    assert s[i + |r|..] == t[|t| - j..];
  }

  lemma StripOfStripped(s: string)
    requires IsStripped(s)
    ensures Strip(s) == s
  {
    assert LeadingSpaces(s) == 0;
    assert TrailingSpaces(s) == 0;
  }

  /** Stripping leaves nothing exactly when the text is all whitespace. */
  lemma StripEmptyIffBlank(s: string)
    ensures Strip(s) == "" <==> AllSpace(s)
  {
    StripSpec(s);
    var n := LeadingSpaces(s);
    if Strip(s) == "" {
      assert s[..n] == s;
    }
  }

  /** A text that does not end in whitespace is its leading whitespace followed by its stripped form. */
  lemma StripKeepsEnd(t: string)
    requires |t| == 0 || !IsSpace(t[|t| - 1])
    ensures AllSpace(t[..LeadingSpaces(t)]) && t == t[..LeadingSpaces(t)] + Strip(t)
  {
    var L := LeadingSpaces(t);
    var r := Strip(t);
    StripTrailer(t);
    StripDecomposes(t);
    NoSpaceTail(t, L + |r|);
    assert t[L + |r|..] == [];
  }

  /** Whitespace at the end of a text that does not end in whitespace is no whitespace at all. */
  lemma NoSpaceTail(t: string, k: nat)
    requires k <= |t| && AllSpace(t[k..]) && (|t| == 0 || !IsSpace(t[|t| - 1]))
    ensures k == |t|
  {
    SpaceTailEnd(t, k);
  }

  /** A nonempty whitespace tail ends the text in whitespace. */
  lemma SpaceTailEnd(t: string, k: nat)
    requires k <= |t| && AllSpace(t[k..])
    ensures k < |t| ==> IsSpace(t[|t| - 1])
  {
    if k < |t| {
      assert t[k..][|t| - k - 1] == t[|t| - 1];
    }
  }


  /** Cut a stripped text anywhere: the part before the cut, some whitespace, and the stripped remainder. */
  lemma StrippedSplitsAt(n: string, k: nat)
    requires IsStripped(n) && k <= |n|
    ensures exists w :: AllSpace(w) && n == n[..k] + w + Strip(n[k..])
  {
    var tail := n[k..];
    assert |tail| > 0 ==> tail[|tail| - 1] == n[|n| - 1];
    StripKeepsEnd(tail);
    var w := tail[..LeadingSpaces(tail)];
    TakeDrop(n, k);
    assert n == n[..k] + (w + Strip(tail));
    assert n[..k] + (w + Strip(tail)) == n[..k] + w + Strip(tail);
  }

  // ---------------------------------------------------------------- affixes

  predicate StartsWith(s: string, p: string) {
    |p| <= |s| && s[..|p|] == p
  }

  predicate EndsWith(s: string, p: string) {
    |p| <= |s| && s[|s| - |p|..] == p
  }

  /** Python `s.removeprefix(p)`. */
  function RemovePrefix(s: string, p: string): string {
    if StartsWith(s, p) then s[|p|..] else s
  }

  /** Python `s.removesuffix(p)`. */
  function RemoveSuffix(s: string, p: string): string {
    if EndsWith(s, p) then s[..|s| - |p|] else s
  }

  // ---------------------------------------------------------------- search, split, join, replace

  predicate OccursAt(s: string, o: string, i: nat) {
    i + |o| <= |s| && s[i..i + |o|] == o
  }

  /** Python `s.find(o)`, None for -1. */
  function IndexOf(s: string, o: string): Option<nat>
    requires |o| > 0
    decreases |s|
  {
    if |s| < |o| then None
    else if StartsWith(s, o) then Some(0)
    else
      match IndexOf(s[1..], o)
      case None => None
      case Some(i) => Some(i + 1)
  }

  /** `IndexOf` finds an occurrence, and none lies to its left. */
  lemma {:induction false} IndexOfLeftmost(s: string, o: string)
    requires |o| > 0
    ensures IndexOf(s, o).Some? ==> OccursAt(s, o, IndexOf(s, o).value)
    ensures forall i: nat :: i < (if IndexOf(s, o).Some? then IndexOf(s, o).value else |s|) ==> !OccursAt(s, o, i)
    decreases |s|
  {
    if |s| >= |o| && !StartsWith(s, o) {
      IndexOfLeftmost(s[1..], o);
      forall i: nat | 1 <= i ensures OccursAt(s, o, i) <==> OccursAt(s[1..], o, i - 1) {
        OccursShift(s, o, i);
      }
    }
  }

  lemma OccursShift(s: string, o: string, i: nat)
    requires 1 <= i && |s| > 0
    ensures OccursAt(s, o, i) <==> OccursAt(s[1..], o, i - 1)
  {
    if i + |o| <= |s| {
      var a, b := s[i..i + |o|], s[1..][i - 1..i - 1 + |o|];
      assert |a| == |b|;
      forall k | 0 <= k < |a| ensures a[k] == b[k] {
        assert a[k] == s[i + k] && b[k] == s[1..][i - 1 + k];
      }
      assert a == b;
    }
  }

  predicate Contains(s: string, o: string)
    requires |o| > 0
  {
    IndexOf(s, o).Some?
  }

  /** `o` occurs in `s` exactly when it occurs at some position. */
  lemma ContainsIffOccurs(s: string, o: string)
    requires |o| > 0
    ensures Contains(s, o) <==> exists i: nat :: OccursAt(s, o, i)
  {
    IndexOfLeftmost(s, o);
    if i: nat :| OccursAt(s, o, i) {
      assert i < |s|;
    }
  }

  /** Python `s.split(sep)` for a non-empty separator: scanning from the left, every
      occurrence of `sep` that does not overlap an earlier one ends a piece. */
  function Split(s: string, sep: string): (r: seq<string>)
    requires |sep| > 0
    ensures |r| >= 1
    decreases |s|
  {
    if |s| == 0 then [""]
    else if StartsWith(s, sep) then [""] + Split(s[|sep|..], sep)
    else
      var t := Split(s[1..], sep);
      [[s[0]] + t[0]] + t[1..]
  }

  /** Python `sep.join(parts)` / JavaScript `parts.join(sep)`. */
  function Join(parts: seq<string>, sep: string): string {
    if |parts| == 0 then ""
    else if |parts| == 1 then parts[0]
    else parts[0] + sep + Join(parts[1..], sep)
  }

  /** The text a hash object is fed by one update per part: the parts one after the other. */
  function Concat(parts: seq<string>): string {
    if |parts| == 0 then "" else Concat(parts[..|parts| - 1]) + parts[|parts| - 1]
  }

  /** Joining the pieces of a split with the separator gives back the text. */
  lemma {:induction false} JoinSplit(s: string, sep: string)
    requires |sep| > 0
    ensures Join(Split(s, sep), sep) == s
    decreases |s|
  {
    if |s| == 0 {
    } else if StartsWith(s, sep) {
      JoinSplit(s[|sep|..], sep);
      JoinEmptyFirst(Split(s[|sep|..], sep), sep);
      assert s == sep + s[|sep|..];
    } else {
      JoinSplit(s[1..], sep);
      JoinPrepend(s[0], Split(s[1..], sep), sep);
      assert s == [s[0]] + s[1..];
    }
  }

  /** An empty first part leaves only the separator in front of the rest. */
  lemma JoinEmptyFirst(t: seq<string>, sep: string)
    requires |t| >= 1
    ensures Join([""] + t, sep) == sep + Join(t, sep)
  {
    assert ([""] + t)[0] == "" && ([""] + t)[1..] == t;
  }

  /** Putting a character in front of the first part puts it in front of the joined text. */
  lemma JoinPrepend(c: char, t: seq<string>, sep: string)
    requires |t| >= 1
    ensures Join([[c] + t[0]] + t[1..], sep) == [c] + Join(t, sep)
  {
    var u := [[c] + t[0]] + t[1..];
    assert u[0] == [c] + t[0] && u[1..] == t[1..];
    if |t| > 1 {
      var j := Join(t[1..], sep);
      assert Join(u, sep) == ([c] + t[0]) + sep + j;
      assert Join(t, sep) == t[0] + sep + j;
      assert ([c] + t[0]) + sep + j == [c] + (t[0] + sep + j);
    }
  }

  /** The first piece of a split is everything before the first separator. */
  lemma SplitFirstPiece(s: string, sep: string)
    requires |sep| > 0
    ensures IndexOf(s, sep).None? ==> Split(s, sep) == [s]
    ensures IndexOf(s, sep).Some? ==>
      var i := IndexOf(s, sep).value;
      i + |sep| <= |s| && Split(s, sep) == [s[..i]] + Split(s[i + |sep|..], sep)
  {
    if IndexOf(s, sep).None? {
      SplitWhole(s, sep);
    } else {
      SplitAtFirst(s, sep);
    }
  }

  /** With no separator in it, a text splits into itself alone. */
  lemma {:induction false} SplitWhole(s: string, sep: string)
    requires |sep| > 0 && IndexOf(s, sep).None?
    ensures Split(s, sep) == [s]
    decreases |s|
  {
    if |s| > 0 {
      assert !StartsWith(s, sep);
      assert IndexOf(s[1..], sep).None?;
      SplitWhole(s[1..], sep);
      assert [s[0]] + s[1..] == s;
    }
  }

  /** A text with a separator in it splits into what comes before the first one and the
      split of what comes after it. */
  lemma {:induction false} SplitAtFirst(s: string, sep: string)
    requires |sep| > 0 && IndexOf(s, sep).Some?
    ensures var i := IndexOf(s, sep).value;
      i + |sep| <= |s| && Split(s, sep) == [s[..i]] + Split(s[i + |sep|..], sep)
    decreases |s|
  {
    if StartsWith(s, sep) {
      assert IndexOf(s, sep) == Some(0);
      assert Split(s, sep) == [""] + Split(s[|sep|..], sep);
      assert s[..0] == "";
    } else {
      assert |s| >= |sep| && IndexOf(s[1..], sep).Some?;
      var j := IndexOf(s[1..], sep).value;
      assert IndexOf(s, sep) == Some(j + 1);
      SplitAtFirst(s[1..], sep);
      SplitPastFirst(s, sep, j);
    }
  }

  /** A split of a text not starting with the separator, once the split of its tail is known. */
  lemma SplitPastFirst(s: string, sep: string, i: nat)
    requires |sep| > 0 && |s| > 0 && !StartsWith(s, sep) && i + |sep| <= |s| - 1
    requires Split(s[1..], sep) == [s[1..][..i]] + Split(s[1..][i + |sep|..], sep)
    ensures Split(s, sep) == [s[..i + 1]] + Split(s[i + 1 + |sep|..], sep)
  {
    var t := Split(s[1..], sep);
    assert Split(s, sep) == [[s[0]] + t[0]] + t[1..];
    assert t[1..] == Split(s[1..][i + |sep|..], sep);
    assert s[1..][i + |sep|..] == s[i + 1 + |sep|..];
    assert [s[0]] + s[1..][..i] == s[..i + 1];
  }

  /** Python `s.replace(o, n)` for a non-empty `o`: every non-overlapping occurrence of `o`,
      scanning from the left, is replaced by `n`. */
  function ReplaceAll(s: string, o: string, n: string): string
    requires |o| > 0
    decreases |s|
  {
    if |s| == 0 then ""
    else if StartsWith(s, o) then n + ReplaceAll(s[|o|..], o, n)
    else [s[0]] + ReplaceAll(s[1..], o, n)
  }

  /** Replacing is splitting on `o` and joining with `n`. */
  lemma {:induction false} ReplaceAllIsJoinSplit(s: string, o: string, n: string)
    requires |o| > 0
    ensures ReplaceAll(s, o, n) == Join(Split(s, o), n)
    decreases |s|
  {
    if |s| == 0 {
    } else if StartsWith(s, o) {
      ReplaceAllIsJoinSplit(s[|o|..], o, n);
    } else {
      ReplaceAllIsJoinSplit(s[1..], o, n);
      var t := Split(s[1..], o);
      if |t| > 1 {
        assert Join(t, n) == t[0] + n + Join(t[1..], n);
      }
    }
  }

  lemma ReplaceAllWithItself(s: string, o: string)
    requires |o| > 0
    ensures ReplaceAll(s, o, o) == s
  {
    ReplaceAllIsJoinSplit(s, o, o);
    JoinSplit(s, o);
  }

  /** A text without `o` is left unchanged by replacing `o`. */
  lemma {:induction false} ReplaceAllAbsent(s: string, o: string, n: string)
    requires |o| > 0 && IndexOf(s, o) == None
    ensures ReplaceAll(s, o, n) == s
    decreases |s|
  {
    if |s| > 0 {
      ReplaceAllAbsent(s[1..], o, n);
    }
  }

  /** The number of non-overlapping occurrences of `o`, scanning from the left. */
  function CountOccurrences(s: string, o: string): nat
    requires |o| > 0
    decreases |s|
  {
    if |s| == 0 then 0
    else if StartsWith(s, o) then 1 + CountOccurrences(s[|o|..], o)
    else CountOccurrences(s[1..], o)
  }

  /** A text with k separators splits into k + 1 pieces. */
  lemma {:induction false} SplitCount(s: string, sep: string)
    requires |sep| > 0
    ensures |Split(s, sep)| == CountOccurrences(s, sep) + 1
    decreases |s|
  {
    if |s| == 0 {
    } else if StartsWith(s, sep) {
      SplitCount(s[|sep|..], sep);
    } else {
      SplitCount(s[1..], sep);
    }
  }

  /** The last piece of `s.split(sep)`, Python `s.split(sep)[-1]`. */
  function LastPiece(s: string, sep: string): string
    requires |sep| > 0
  {
    var parts := Split(s, sep);
    parts[|parts| - 1]
  }

  /** Whatever precedes a separator character does not reach the last piece. */
  lemma {:induction false} LastPieceAfter(d: string, c: char, n: string)
    ensures |Split(d + [c] + n, [c])| >= 2
    ensures LastPiece(d + [c] + n, [c]) == LastPiece(n, [c])
    decreases |d|
  {
    var s := d + [c] + n;
    if |d| == 0 {
      assert s == [c] + n && StartsWith(s, [c]) && s[1..] == n;
    } else {
      assert s[1..] == d[1..] + [c] + n;
      LastPieceAfter(d[1..], c, n);
    }
  }

  /** Replacing a character by a different one leaves none of it. */
  lemma {:induction false} ReplaceCharRemoves(s: string, c: char, d: char)
    requires c != d
    ensures c !in ReplaceAll(s, [c], [d])
    decreases |s|
  {
    if |s| > 0 {
      ReplaceCharRemoves(s[1..], c, d);
    }
  }

  /** A piece of a split on a character holds no such character. */
  lemma {:induction false} SplitPiecesFree(s: string, c: char)
    ensures forall k :: 0 <= k < |Split(s, [c])| ==> c !in Split(s, [c])[k]
    decreases |s|
  {
    if |s| > 0 {
      SplitPiecesFree(s[1..], c);
      if !StartsWith(s, [c]) {
        var t := Split(s[1..], [c]);
        assert s[0] != c;
        assert forall k :: 1 <= k < |Split(s, [c])| ==> Split(s, [c])[k] == t[k];
      }
    }
  }

  /** Joining pieces free of a character with a separator free of it leaves none of it. */
  lemma {:induction false} JoinFree(parts: seq<string>, sep: string, c: char)
    requires c !in sep
    requires forall k :: 0 <= k < |parts| ==> c !in parts[k]
    ensures c !in Join(parts, sep)
    decreases |parts|
  {
    if |parts| > 1 {
      JoinFree(parts[1..], sep, c);
    }
  }

  /** The first piece of `s.split(sep)`, Python `s.split(sep)[0]`. */
  function FirstPiece(s: string, sep: string): string
    requires |sep| > 0
  {
    Split(s, sep)[0]
  }

  // ---------------------------------------------------------------- case

  function LowerChar(c: char): char {
    if 'A' <= c <= 'Z' then (c as int + 32) as char else c
  }

  function UpperChar(c: char): char {
    if 'a' <= c <= 'z' then (c as int - 32) as char else c
  }

  /** `s.lower()` on the ASCII letters. */
  function Lower(s: string): (r: string)
    ensures |r| == |s|
    ensures forall i :: 0 <= i < |s| ==> r[i] == LowerChar(s[i])
  {
    seq(|s|, i requires 0 <= i < |s| => LowerChar(s[i]))
  }

  /** `s.capitalize()` on the ASCII letters: first character upper case, the rest lower case. */
  function Capitalize(s: string): (r: string)
    ensures |r| == |s|
  {
    if |s| == 0 then "" else [UpperChar(s[0])] + Lower(s[1..])
  }

  /** Changing case creates no character that is not a letter. */
  lemma CapitalizeFree(s: string, c: char)
    requires !('a' <= c <= 'z') && !('A' <= c <= 'Z') && c !in s
    ensures c !in Capitalize(s)
  {
    if |s| > 0 {
      var r := Capitalize(s);
      forall i | 0 <= i < |r| ensures r[i] != c {
        if i > 0 {
          assert r[i] == LowerChar(s[i]);
        }
      }
    }
  }

  // ---------------------------------------------------------------- decimal text

  function DigitChar(d: nat): char
    requires d < 10
  {
    ('0' as int + d) as char
  }

  /** Python `str(n)` for a natural number. */
  function NatToDecimal(n: nat): (r: string)
    ensures |r| >= 1 && '0' <= r[0] <= '9'
    ensures n >= 10 ==> |r| >= 2
  {
    if n < 10 then [DigitChar(n)] else NatToDecimal(n / 10) + [DigitChar(n % 10)]
  }

  /** The decimal text of a natural number holds only digits. */
  lemma {:induction false} NatToDecimalDigits(n: nat)
    ensures forall c :: c in NatToDecimal(n) ==> '0' <= c <= '9'
    decreases n
  {
    if n >= 10 {
      NatToDecimalDigits(n / 10);
      assert NatToDecimal(n) == NatToDecimal(n / 10) + [DigitChar(n % 10)];
    }
  }

  /** Python `str(i)` for an integer. */
  function IntToDecimal(i: int): string {
    if i < 0 then "-" + NatToDecimal(-i) else NatToDecimal(i)
  }

  lemma {:induction false} NatToDecimalInjective(n: nat, m: nat)
    requires NatToDecimal(n) == NatToDecimal(m)
    ensures n == m
    decreases n
  {
    var a, b := NatToDecimal(n), NatToDecimal(m);
    if n < 10 && m < 10 {
      assert a[0] == b[0];
    } else if n >= 10 && m >= 10 {
      assert a[|a| - 1] == b[|b| - 1];
      assert n % 10 == m % 10;
      assert a[..|a| - 1] == NatToDecimal(n / 10);
      assert b[..|b| - 1] == NatToDecimal(m / 10);
      NatToDecimalInjective(n / 10, m / 10);
    } else {
      assert false;
    }
  }

  /** Distinct integers have distinct decimal texts. */
  lemma IntToDecimalInjective(i: int, j: int)
    requires IntToDecimal(i) == IntToDecimal(j)
    ensures i == j
  {
    var a, b := IntToDecimal(i), IntToDecimal(j);
    if i < 0 && j < 0 {
      assert a[1..] == NatToDecimal(-i) && b[1..] == NatToDecimal(-j);
      NatToDecimalInjective(-i, -j);
    } else if i >= 0 && j >= 0 {
      NatToDecimalInjective(i, j);
    } else {
      assert false;
    }
  }
}
