/**
 * packages/bindings-hash/lib/BindingsHash.ts: collects result bindings; `digest` turns each
 * into its term values joined with ":", in the binding's own order and without the
 * variable names, sorts those texts and pushes them onto the hash object.
 *
 * `push` writes to the hash stream's readable side rather than updating the digest, so the
 * model keeps what the hash object returns abstract: a parameter given the algorithm, the
 * encoding and the texts pushed. The comparator the sort uses, `localeCompare`, is a
 * parameter too.
 */
module PackageBindingsHash {
  import opened Strings
  import opened Seqs
  import opened Sorting
  import opened Dicts
  import opened Rdf

  /** What the hash object returns for an algorithm and an encoding after these pushes. */
  type PushedDigest = (string, string, seq<string>) -> string

  /** The text of one binding: its values joined with ":". */
  function ValueLine(b: Binding): string {
    Join(Values(b), ":")
  }

  /** The texts `digest` pushes: every binding's text, sorted. */
  function SortedValues(compare: Comparator, bindings: seq<Binding>): (r: seq<string>)
    ensures |r| == |bindings|
  {
    SortBy(compare, Map(ValueLine, bindings))
  }

  /** The pushed texts do not depend on the order the bindings were added in, when the
      comparator separates the texts of the bindings. */
  lemma SortedValuesPermutation(compare: Comparator, a: seq<Binding>, b: seq<Binding>)
    requires multiset(a) == multiset(b)
    requires Consistent(compare) && Separates(compare, Map(ValueLine, a))
    ensures SortedValues(compare, a) == SortedValues(compare, b)
  {
    MapPermutation(ValueLine, a, b);
    SortByPermutationInvariant(compare, Map(ValueLine, a), Map(ValueLine, b));
  }

  /** Variable names play no part: bindings with the same values in the same order, under
      any names, push the same texts. */
  lemma NamesIgnored(compare: Comparator, a: seq<Binding>, b: seq<Binding>)
    requires |a| == |b| && forall i :: 0 <= i < |a| ==> Values(a[i]) == Values(b[i])
    ensures SortedValues(compare, a) == SortedValues(compare, b)
  {
    MapIndex(ValueLine, a);
    MapIndex(ValueLine, b);
    assert Map(ValueLine, a) == Map(ValueLine, b);
  }

  /** So two different result sets can push the same texts. */
  lemma NamesIgnoredExample(compare: Comparator)
    ensures SortedValues(compare, [[("s", "x")]]) == SortedValues(compare, [[("o", "x")]])
  {
    NamesIgnored(compare, [[("s", "x")]], [[("o", "x")]]);
  }

  class BindingsHash {
    const algorithm: string
    const encoding: string
    const hash: PushedDigest
    /** `localeCompare`, by which `digest` sorts. */
    const compare: Comparator
    /** The bindings added so far, in order. */
    var bindings: seq<Binding>

    constructor(algorithm: string, encoding: string, hash: PushedDigest, compare: Comparator)
      ensures this.algorithm == algorithm && this.encoding == encoding && this.hash == hash
      ensures this.compare == compare
      ensures bindings == []
    {
      this.algorithm := algorithm;
      this.encoding := encoding;
      this.hash := hash;
      this.compare := compare;
      bindings := [];
    }

    /** The digest the bindings held now give. */
    function Current(): string
      reads this
    {
      hash(algorithm, encoding, SortedValues(compare, bindings))
    }

    /** `digest`: the sorted texts pushed one by one; the stored bindings are only read. */
    method Digest() returns (d: string)
      ensures d == hash(algorithm, encoding, SortedValues(compare, bindings))
    {
      var sortedValues := SortedValues(compare, bindings);
      var pushed: seq<string> := [];
      for k := 0 to |sortedValues|
        invariant pushed == sortedValues[..k]
      {
        pushed := pushed + [sortedValues[k]];
      }
      assert sortedValues[..|sortedValues|] == sortedValues;
      d := hash(algorithm, encoding, pushed);
    }

    /** `add`: one binding more, at the end. */
    method Add(b: Binding)
      modifies this
      ensures bindings == old(bindings) + [b]
    {
      bindings := bindings + [b];
    }
  }

  /** `digest` leaves the bindings alone, so asking twice gives the same answer. */
  method DigestTwice(h: BindingsHash) returns (first: string, second: string)
    ensures first == second
  {
    first := h.Digest();
    second := h.Digest();
  }
}
