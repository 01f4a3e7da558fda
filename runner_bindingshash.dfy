/**
 * runner/bindingshash.ts: collects result bindings and hashes them in a canonical form.
 * Each binding becomes its "variable -> value" lines, sorted and joined with newlines; the
 * per-binding texts are sorted and fed to the hash one after the other.
 *
 * The hash itself (`createHash(algorithm).update(…).digest(encoding)`) is a parameter, and
 * so is the comparator `localeCompare` the three sorts use: the sorted texts forget the
 * order of arrival only where that comparator is consistent and separates the texts.
 */
module RunnerBindingsHash {
  import opened Wrappers
  import opened Strings
  import opened Seqs
  import opened Sorting
  import opened Dicts
  import opened Rdf

  /** The digest of a text for an algorithm and an output encoding. */
  type HashFunction = (string, string, string) -> string

  /** `${variable} -> ${binding.get(variable).value}`. */
  function Entry(b: Binding, variable: string): string {
    variable + " -> " + Get(b, variable).GetOr("")
  }

  function EntryOf(b: Binding): string -> string {
    v => Entry(b, v)
  }

  /** A variable and its value as one line. */
  function PairText(p: (string, string)): string {
    p.0 + " -> " + p.1
  }

  /** The text of one binding: its entries for the sorted variables, sorted again, one per
      line. */
  function Line(compare: Comparator, b: Binding): string {
    Join(SortBy(compare, Map(EntryOf(b), SortBy(compare, Keys(b)))), "\n")
  }

  function LineOf(compare: Comparator): Binding -> string {
    b => Line(compare, b)
  }

  /** What `digest` feeds the hash: the texts of all bindings, sorted. */
  function HashInput(compare: Comparator, bindings: seq<Binding>): (r: seq<string>)
    ensures |r| == |bindings|
  {
    SortBy(compare, Map(LineOf(compare), bindings))
  }

  /** Looking up a variable of a binding gives its own value. */
  lemma GetOwnKey(b: Binding, i: nat)
    requires Valid(b) && i < |b|
    ensures Get(b, b[i].0) == Some(b[i].1)
  {
    GetIsLastValue(b, b[i].0);
    LastValueAt(b, i);
  }

  /** The text of a binding is its (variable, value) pairs as lines, sorted: with a
      consistent comparator that separates those lines, the order of the variables plays
      no part. */
  lemma LineIsSortedPairs(compare: Comparator, b: Binding)
    requires Valid(b) && Consistent(compare) && Separates(compare, Map(PairText, b))
    ensures Line(compare, b) == Join(SortBy(compare, Map(PairText, b)), "\n")
  {
    var keys := Keys(b);
    MapIndex(EntryOf(b), keys);
    MapIndex(PairText, b);
    forall i | 0 <= i < |b| ensures Map(EntryOf(b), keys)[i] == Map(PairText, b)[i] {
      GetOwnKey(b, i);
    }
    assert Map(EntryOf(b), keys) == Map(PairText, b);
    MapPermutation(EntryOf(b), SortBy(compare, keys), keys);
    SortByPermutationInvariant(compare, Map(PairText, b), Map(EntryOf(b), SortBy(compare, keys)));
  }

  /** Two bindings with the same variables and values, iterated in different orders, have
      the same text when the comparator separates their lines. */
  lemma LineVariableOrder(compare: Comparator, b1: Binding, b2: Binding)
    requires Valid(b1) && Valid(b2) && multiset(b1) == multiset(b2)
    requires Consistent(compare) && Separates(compare, Map(PairText, b1))
    ensures Line(compare, b1) == Line(compare, b2)
  {
    MapPermutation(PairText, b1, b2);
    SeparatesPermutation(compare, Map(PairText, b1), Map(PairText, b2));
    LineIsSortedPairs(compare, b1);
    LineIsSortedPairs(compare, b2);
    SortByPermutationInvariant(compare, Map(PairText, b1), Map(PairText, b2));
  }

  /** The hash input does not depend on the order the bindings were added in, when the
      comparator separates their texts. */
  lemma HashInputPermutation(compare: Comparator, a: seq<Binding>, b: seq<Binding>)
    requires multiset(a) == multiset(b)
    requires Consistent(compare) && Separates(compare, Map(LineOf(compare), a))
    ensures HashInput(compare, a) == HashInput(compare, b)
  {
    MapPermutation(LineOf(compare), a, b);
    SortByPermutationInvariant(compare, Map(LineOf(compare), a), Map(LineOf(compare), b));
  }

  /** A binding added again is hashed again: the input is a multiset, not a set. */
  lemma HashInputKeepsDuplicates(compare: Comparator, bindings: seq<Binding>, b: Binding)
    ensures multiset(HashInput(compare, bindings + [b])) == multiset(HashInput(compare, bindings)) + multiset{Line(compare, b)}
  {
    MapAppend(LineOf(compare), bindings, [b]);
    assert Map(LineOf(compare), [b]) == [Line(compare, b)] + Map(LineOf(compare), []);
  }

  /** The text of one binding, as the inner loop of `digest` builds it. */
  method BindingLine(compare: Comparator, binding: Binding) returns (line: string)
    ensures line == Line(compare, binding)
  {
    var variables := SortBy(compare, Keys(binding));
    var values: seq<string> := [];
    for j := 0 to |variables|
      invariant values == Map(EntryOf(binding), variables[..j])
    {
      MapSnoc(EntryOf(binding), variables, j);
      values := values + [variables[j] + " -> " + Get(binding, variables[j]).GetOr("")];
    }
    assert variables[..|variables|] == variables;
    line := Join(SortBy(compare, values), "\n");
  }

  /** The texts fed to the hash one after the other: their concatenation. */
  method Feed(texts: seq<string>) returns (fed: string)
    ensures fed == Concat(texts)
  {
    fed := "";
    for k := 0 to |texts|
      invariant fed == Concat(texts[..k])
    {
      assert texts[..k + 1][..k] == texts[..k];
      fed := fed + texts[k];
    }
    assert texts[..|texts|] == texts;
  }

  class BindingsHash {
    const algorithm: string
    const encoding: string
    const hash: HashFunction
    /** `localeCompare`, which every sort of `digest` uses. */
    const compare: Comparator
    /** The bindings added so far, in order. */
    var bindings: seq<Binding>

    constructor(algorithm: string, encoding: string, hash: HashFunction, compare: Comparator)
      ensures this.algorithm == algorithm && this.encoding == encoding && this.hash == hash
      ensures this.compare == compare
      ensures bindings == []
    {
      this.algorithm := algorithm;
      this.encoding := encoding;
      this.hash := hash;
      this.compare := compare;
      bindings := [];
    }

    /** `digest`: the per-binding texts, sorted, each fed to the hash in turn; the stored
        bindings are only read. */
    method Digest() returns (d: string)
      ensures d == hash(algorithm, encoding, Concat(HashInput(compare, bindings)))
    {
      var result: seq<string> := [];
      for i := 0 to |bindings|
        invariant result == Map(LineOf(compare), bindings[..i])
      {
        var line := BindingLine(compare, bindings[i]);
        MapSnoc(LineOf(compare), bindings, i);
        result := result + [line];
      }
      assert bindings[..|bindings|] == bindings;
      result := SortBy(compare, result);
      var fed := Feed(result);
      d := hash(algorithm, encoding, fed);
    }

    /** `add`: one binding more, at the end. */
    method Add(b: Binding)
      modifies this
      ensures bindings == old(bindings) + [b]
    {
      bindings := bindings + [b];
    }
  }

  /** `digest` leaves the bindings alone, so asking twice gives the same answer. */
  method DigestTwice(h: BindingsHash) returns (first: string, second: string)
    ensures first == second
  {
    first := h.Digest();
    second := h.Digest();
  }
}
