/**
 * lib/BindingsHash.ts: the same canonical texts as packages/bindings-hash (values joined
 * with ":", sorted, pushed onto the hash object), with the algorithm fixed to md5, the
 * encoding chosen per `digest` call, and a `clear` that empties the store.
 */
module LibBindingsHash {
  import opened Rdf
  import opened Seqs
  import opened Sorting
  import opened PackageBindingsHash

  const Algorithm := "md5"

  class BindingsHash {
    const hash: PushedDigest
    /** `localeCompare`, by which `digest` sorts. */
    const compare: Comparator
    /** The bindings added since the last `clear`, in order. */
    var bindings: seq<Binding>

    constructor(hash: PushedDigest, compare: Comparator)
      ensures this.hash == hash && this.compare == compare && bindings == []
    {
      this.hash := hash;
      this.compare := compare;
      bindings := [];
    }

    /** `digest(encoding)`: md5 over the sorted texts, whatever the encoding. */
    method Digest(encoding: string) returns (d: string)
      ensures d == hash(Algorithm, encoding, SortedValues(compare, bindings))
    {
      var sortedValues := SortedValues(compare, bindings);
      var pushed: seq<string> := [];
      for k := 0 to |sortedValues|
        invariant pushed == sortedValues[..k]
      {
        pushed := pushed + [sortedValues[k]];
      }
      assert sortedValues[..|sortedValues|] == sortedValues;
      d := hash(Algorithm, encoding, pushed);
    }

    /** `add`: one binding more, at the end. */
    method Add(b: Binding)
      modifies this
      ensures bindings == old(bindings) + [b]
    {
      bindings := bindings + [b];
    }

    /** `clear`: pops until the store is empty. */
    method Clear()
      modifies this
      ensures bindings == []
    {
      while |bindings| > 0
        invariant bindings == old(bindings)[..|bindings|]
        decreases |bindings|
      {
        bindings := bindings[..|bindings| - 1];
      }
    }
  }

  /** After `clear`, a digest is that of no bindings at all, and a second `clear` changes
      nothing. */
  method ClearThenDigest(h: BindingsHash, encoding: string) returns (d: string)
    modifies h
    ensures h.bindings == [] && d == h.hash(Algorithm, encoding, [])
  {
    h.Clear();
    h.Clear();
    d := h.Digest(encoding);
  }

  /** Two stores holding the same bindings in different orders give the same digest, when
      the comparator separates the texts of those bindings. */
  method DigestOrderFree(h1: BindingsHash, h2: BindingsHash, encoding: string) returns (d1: string, d2: string)
    requires h1.hash == h2.hash && h1.compare == h2.compare && multiset(h1.bindings) == multiset(h2.bindings)
    requires Consistent(h1.compare) && Separates(h1.compare, Map(ValueLine, h1.bindings))
    ensures d1 == d2
  {
    d1 := h1.Digest(encoding);
    d2 := h2.Digest(encoding);
    SortedValuesPermutation(h1.compare, h1.bindings, h2.bindings);
  }
}
