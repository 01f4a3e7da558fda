/**
 * What the Python orchestrators (runner/runner.py, chronomunica/experiment.py,
 * chronomunica/benchmark.py, tool/benchmark.py) share: the order in which nested loops visit
 * (outer, inner, repetition) triples, a trace of what the loop did, and the proxy's URL log
 * consumed by `reset()` after some executions only.
 *
 * An execution is given by what the engine does in it: the URLs it requests through the proxy
 * while it runs, and whether the engine call returns a record or raises (with `str(ex)`).
 */
module Executions {
  import opened Wrappers
  import opened Seqs

  datatype Attempt<R> = Attempt(requested: seq<string>, outcome: Outcome<R>)

  /** The observable steps of an orchestration. */
  datatype Step<V> = ProxyStart | Run(visit: V) | Serialized | ProxyStop

  // ---------------------------------------------------------------- loop order

  /** `range(0, replication)` runs this many times: never for a negative replication. */
  function Repetitions(replication: int): nat {
    if replication < 0 then 0 else replication
  }

  /** `for i in range(0, n)` for one (outer, inner) pair. */
  function Reps<A, B>(a: A, b: B, n: nat): (r: seq<(A, B, nat)>)
    ensures |r| == n
    ensures forall i :: 0 <= i < n ==> r[i] == (a, b, i)
  {
    seq(n, i requires 0 <= i < n => (a, b, i))
  }

  /** The middle loop for one outer item: the repetitions of each inner item in turn. */
  function Block<A, B>(a: A, inner: seq<B>, n: nat): seq<(A, B, nat)> {
    if |inner| == 0 then [] else Reps(a, inner[0], n) + Block(a, inner[1..], n)
  }

  /** All three loops: outer, then inner, then repetition. */
  function Nested<A, B>(outer: seq<A>, inner: seq<B>, n: nat): seq<(A, B, nat)> {
    if |outer| == 0 then [] else Block(outer[0], inner, n) + Nested(outer[1..], inner, n)
  }

  lemma {:induction false} BlockLength<A, B>(a: A, inner: seq<B>, n: nat)
    ensures |Block(a, inner, n)| == |inner| * n
  {
    if |inner| > 0 {
      BlockLength(a, inner[1..], n);
      MulSucc(|inner| - 1, n);
    }
  }

  /** Every outer item has a block of the same length. */
  lemma {:induction false} BlockLengths<A, B>(a: A, a': A, inner: seq<B>, n: nat)
    ensures |Block(a, inner, n)| == |Block(a', inner, n)|
  {
    if |inner| > 0 {
      BlockLengths(a, a', inner[1..], n);
    }
  }

  /** Every triple is visited once: there are |outer| · |inner| · n visits. */
  lemma {:induction false} NestedLength<A, B>(outer: seq<A>, inner: seq<B>, n: nat)
    ensures |Nested(outer, inner, n)| == |outer| * (|inner| * n)
  {
    if |outer| > 0 {
      NestedLength(outer[1..], inner, n);
      BlockLength(outer[0], inner, n);
      MulSucc(|outer| - 1, |inner| * n);
    }
  }

  /** One more inner item runs its repetitions after the others. */
  lemma {:induction false} BlockSnoc<A, B>(a: A, inner: seq<B>, b: B, n: nat)
    ensures Block(a, inner + [b], n) == Block(a, inner, n) + Reps(a, b, n)
  {
    if |inner| == 0 {
      assert (inner + [b])[1..] == [];
    } else {
      assert (inner + [b])[1..] == inner[1..] + [b];
      BlockSnoc(a, inner[1..], b, n);
    }
  }

  /** One more outer item runs its block after the others. */
  lemma {:induction false} NestedSnoc<A, B>(outer: seq<A>, a: A, inner: seq<B>, n: nat)
    ensures Nested(outer + [a], inner, n) == Nested(outer, inner, n) + Block(a, inner, n)
  {
    if |outer| == 0 {
      assert (outer + [a])[1..] == [];
    } else {
      assert (outer + [a])[1..] == outer[1..] + [a];
      NestedSnoc(outer[1..], a, inner, n);
    }
  }

  /** The middle loop over the first k + 1 inner items. */
  lemma BlockTake<A, B>(a: A, inner: seq<B>, n: nat, k: nat)
    requires k < |inner|
    ensures Block(a, inner[..k + 1], n) == Block(a, inner[..k], n) + Reps(a, inner[k], n)
  {
    assert inner[..k + 1] == inner[..k] + [inner[k]];
    BlockSnoc(a, inner[..k], inner[k], n);
  }

  /** The outer loop over the first k + 1 outer items. */
  lemma NestedTake<A, B>(outer: seq<A>, inner: seq<B>, n: nat, k: nat)
    requires k < |outer|
    ensures Nested(outer[..k + 1], inner, n) == Nested(outer[..k], inner, n) + Block(outer[k], inner, n)
  {
    assert outer[..k + 1] == outer[..k] + [outer[k]];
    NestedSnoc(outer[..k], outer[k], inner, n);
  }

  /** The middle loop over two runs of inner items is the loop over each in turn. */
  lemma {:induction false} BlockAppend<A, B>(a: A, x: seq<B>, y: seq<B>, n: nat)
    ensures Block(a, x + y, n) == Block(a, x, n) + Block(a, y, n)
  {
    if |x| == 0 {
      assert x + y == y;
    } else {
      assert (x + y)[1..] == x[1..] + y;
      BlockAppend(a, x[1..], y, n);
    }
  }

  /** The outer loop over two runs of outer items is the loop over each in turn. */
  lemma {:induction false} NestedAppend<A, B>(x: seq<A>, y: seq<A>, inner: seq<B>, n: nat)
    ensures Nested(x + y, inner, n) == Nested(x, inner, n) + Nested(y, inner, n)
  {
    if |x| == 0 {
      assert x + y == y;
    } else {
      assert (x + y)[1..] == x[1..] + y;
      NestedAppend(x[1..], y, inner, n);
    }
  }

  /** The visits of a middle loop that stopped during the r-th repetition of inner[k]
      (p being the visits of the items before k): those of the items before k, then the
      first r of inner[k]. */
  lemma BlockPrefix<A, B>(a: A, inner: seq<B>, n: nat, k: nat, p: nat, r: nat, t: nat)
    requires k < |inner| && p == |Block(a, inner[..k], n)| && r <= n && t == p + r
    ensures p + n <= |Block(a, inner, n)|
    ensures Block(a, inner, n)[..t] == Block(a, inner[..k], n) + Reps(a, inner[k], n)[..r]
  {
    assert inner == inner[..k] + inner[k..];
    BlockAppend(a, inner[..k], inner[k..], n);
    assert inner[k..][1..] == inner[k + 1..];
    TakeAppend(Block(a, inner[..k], n), Reps(a, inner[k], n) + Block(a, inner[k + 1..], n), r);
    TakeLeft(Reps(a, inner[k], n), Block(a, inner[k + 1..], n), r);
  }

  /** The visits of an outer loop that stopped during the r-th visit of the block of
      outer[k] (p being the visits of the blocks before k): the blocks before k, then the
      first r of outer[k]'s. */
  lemma NestedPrefix<A, B>(outer: seq<A>, inner: seq<B>, n: nat, k: nat, p: nat, r: nat, t: nat)
    requires k < |outer| && p == |Nested(outer[..k], inner, n)| && r <= |Block(outer[k], inner, n)| && t == p + r
    ensures p + |Block(outer[k], inner, n)| <= |Nested(outer, inner, n)|
    ensures Nested(outer, inner, n)[..t] == Nested(outer[..k], inner, n) + Block(outer[k], inner, n)[..r]
  {
    assert outer == outer[..k] + outer[k..];
    NestedAppend(outer[..k], outer[k..], inner, n);
    assert outer[k..][1..] == outer[k + 1..];
    TakeAppend(Nested(outer[..k], inner, n), Block(outer[k], inner, n) + Nested(outer[k + 1..], inner, n), r);
    TakeLeft(Block(outer[k], inner, n), Nested(outer[k + 1..], inner, n), r);
  }

  /** The first p visits of a middle loop that has finished inner[..k], followed by the first
      r repetitions of inner[k], are its first p + r visits. */
  lemma BlockExtend<A, B>(a: A, inner: seq<B>, n: nat, k: nat, p: nat, r: nat)
    requires k < |inner| && p == |Block(a, inner[..k], n)| && r <= n
    ensures p + n <= |Block(a, inner, n)|
    ensures Block(a, inner, n)[..p] + Reps(a, inner[k], n)[..r] == Block(a, inner, n)[..p + r]
  {
    BlockPrefix(a, inner, n, k, p, 0, p);
    BlockPrefix(a, inner, n, k, p, r, p + r);
    assert Reps(a, inner[k], n)[..0] == [];
    assert Block(a, inner[..k], n) + [] == Block(a, inner[..k], n);
  }

  /** The first p visits of an outer loop that has finished outer[..k], followed by the first
      r visits of outer[k]'s block, are its first p + r visits. */
  lemma NestedExtend<A, B>(outer: seq<A>, inner: seq<B>, n: nat, k: nat, p: nat, r: nat)
    requires k < |outer| && p == |Nested(outer[..k], inner, n)| && r <= |Block(outer[k], inner, n)|
    ensures p + |Block(outer[k], inner, n)| <= |Nested(outer, inner, n)|
    ensures Nested(outer, inner, n)[..p] + Block(outer[k], inner, n)[..r] == Nested(outer, inner, n)[..p + r]
  {
    NestedPrefix(outer, inner, n, k, p, 0, p);
    NestedPrefix(outer, inner, n, k, p, r, p + r);
    assert Block(outer[k], inner, n)[..0] == [];
    assert Nested(outer[..k], inner, n) + [] == Nested(outer[..k], inner, n);
  }

  lemma MulSucc(a: nat, l: nat)
    ensures (a + 1) * l == a * l + l
  {
  }

  lemma MulMono(a: nat, b: nat, l: nat)
    requires a <= b
    ensures a * l <= b * l
  {
  }

  lemma {:induction false} BlockAt<A, B>(a: A, inner: seq<B>, n: nat, b: nat, i: nat)
    requires b < |inner| && i < n
    ensures b * n + i < |Block(a, inner, n)|
    ensures Block(a, inner, n)[b * n + i] == (a, inner[b], i)
  {
    BlockLength(a, inner, n);
    MulSucc(b, n);
    MulMono(b + 1, |inner|, n);
    if b > 0 {
      BlockAt(a, inner[1..], n, b - 1, i);
      MulSucc(b - 1, n);
    }
  }

  /** Position k of the block of outer[a] is position a · l + k of the whole, l being the
      length of a block. */
  lemma {:induction false} NestedIndex<A, B>(outer: seq<A>, inner: seq<B>, n: nat, a: nat, k: nat, l: nat, p: nat)
    requires a < |outer| && l == |inner| * n && p == a * l && k < l
    ensures p + k < |Nested(outer, inner, n)| && k < |Block(outer[a], inner, n)|
    ensures Nested(outer, inner, n)[p + k] == Block(outer[a], inner, n)[k]
  {
    var first, rest := Block(outer[0], inner, n), Nested(outer[1..], inner, n);
    assert Nested(outer, inner, n) == first + rest;
    BlockLength(outer[0], inner, n);
    BlockLengths(outer[0], outer[a], inner, n);
    if a > 0 {
      MulSucc(a - 1, l);
      NestedIndex(outer[1..], inner, n, a - 1, k, l, p - l);
      assert (first + rest)[l + (p - l + k)] == rest[p - l + k];
    } else {
      assert (first + rest)[k] == first[k];
    }
  }

  /** The visit at position a · (|inner| · n) + b · n + i is (outer[a], inner[b], i): outer
      slowest, repetition fastest. */
  lemma NestedAt<A, B>(outer: seq<A>, inner: seq<B>, n: nat, a: nat, b: nat, i: nat)
    requires a < |outer| && b < |inner| && i < n
    ensures a * (|inner| * n) + b * n + i < |Nested(outer, inner, n)|
    ensures Nested(outer, inner, n)[a * (|inner| * n) + b * n + i] == (outer[a], inner[b], i)
  {
    BlockAt(outer[a], inner, n, b, i);
    BlockLength(outer[a], inner, n);
    NestedIndex(outer, inner, n, a, b * n + i, |inner| * n, a * (|inner| * n));
  }

  /** The steps of the visits, in order. */
  function Runs<V>(vs: seq<V>): (r: seq<Step<V>>)
    ensures |r| == |vs|
    ensures forall i :: 0 <= i < |vs| ==> r[i] == Run(vs[i])
  {
    seq(|vs|, i requires 0 <= i < |vs| => Run(vs[i]))
  }

  lemma RunsAppend<V>(a: seq<V>, b: seq<V>)
    ensures Runs(a + b) == Runs(a) + Runs(b)
  {
  }

  /** The visits and the trace of the outer loop over the first k + 1 outer items. */
  lemma NestedRunsTake<A, B>(outer: seq<A>, inner: seq<B>, n: nat, k: nat)
    requires k < |outer|
    ensures Nested(outer[..k + 1], inner, n) == Nested(outer[..k], inner, n) + Block(outer[k], inner, n)
    ensures Runs(Nested(outer[..k + 1], inner, n)) == Runs(Nested(outer[..k], inner, n)) + Runs(Block(outer[k], inner, n))
  {
    NestedTake(outer, inner, n, k);
    RunsAppend(Nested(outer[..k], inner, n), Block(outer[k], inner, n));
  }

  /** The visits and the trace of the middle loop over the first k + 1 inner items. */
  lemma BlockRunsTake<A, B>(a: A, inner: seq<B>, n: nat, k: nat)
    requires k < |inner|
    ensures Block(a, inner[..k + 1], n) == Block(a, inner[..k], n) + Reps(a, inner[k], n)
    ensures Runs(Block(a, inner[..k + 1], n)) == Runs(Block(a, inner[..k], n)) + Runs(Reps(a, inner[k], n))
  {
    BlockTake(a, inner, n, k);
    RunsAppend(Block(a, inner[..k], n), Reps(a, inner[k], n));
  }

  // ---------------------------------------------------------------- the proxy log

  /** Every URL the first n executions requested, in order. */
  function Requested<R>(attempt: nat -> Attempt<R>, n: nat): seq<string> {
    if n == 0 then [] else Requested(attempt, n - 1) + attempt(n - 1).requested
  }

  /** What `reset()` handed over after each of the first n executions, when it is called only
      after the engine call returns, and the log left afterwards: a failed execution's URLs
      stay in the log and go to the next execution that returns. */
  function ResetOnReturn<R>(attempt: nat -> Attempt<R>, init: seq<string>, n: nat): (r: (seq<Option<seq<string>>>, seq<string>))
    ensures |r.0| == n
  {
    if n == 0 then ([], init)
    else
      var (handed, pending) := ResetOnReturn(attempt, init, n - 1);
      var log := pending + attempt(n - 1).requested;
      if attempt(n - 1).outcome.Ok? then (handed + [Some(log)], []) else (handed + [None], log)
  }

  /** The URLs handed over, in order. */
  function Attached(handed: seq<Option<seq<string>>>): seq<string> {
    if |handed| == 0 then [] else Attached(handed[..|handed| - 1]) + handed[|handed| - 1].GetOr([])
  }

  /** No URL is lost or counted twice: what was handed over, followed by what is still in the
      log, is everything the log held and everything the executions requested. */
  lemma {:induction false} ResetOnReturnConserves<R>(attempt: nat -> Attempt<R>, init: seq<string>, n: nat)
    ensures Attached(ResetOnReturn(attempt, init, n).0) + ResetOnReturn(attempt, init, n).1
         == init + Requested(attempt, n)
  {
    if n > 0 {
      ResetOnReturnConserves(attempt, init, n - 1);
      var (handed, pending) := ResetOnReturn(attempt, init, n - 1);
      var (handed', pending') := ResetOnReturn(attempt, init, n);
      var log := pending + attempt(n - 1).requested;
      assert handed'[..|handed'| - 1] == handed;
      assert Attached(handed') == Attached(handed) + handed'[n - 1].GetOr([]);
      assert init + Requested(attempt, n) == (init + Requested(attempt, n - 1)) + attempt(n - 1).requested;
    }
  }

  /** The log is handed over exactly after the executions whose engine call returned. */
  lemma {:induction false} ResetOnReturnHanded<R>(attempt: nat -> Attempt<R>, init: seq<string>, n: nat)
    ensures forall k :: 0 <= k < n ==> (ResetOnReturn(attempt, init, n).0[k].Some? <==> attempt(k).outcome.Ok?)
  {
    if n > 0 {
      ResetOnReturnHanded(attempt, init, n - 1);
      var (handed, pending) := ResetOnReturn(attempt, init, n - 1);
      assert forall k :: 0 <= k < n - 1 ==> ResetOnReturn(attempt, init, n).0[k] == handed[k];
    }
  }

  /** Right after an execution that returned, the log is empty; after one that raised, the
      log has kept that execution's URLs at its end. */
  lemma ResetOnReturnPending<R>(attempt: nat -> Attempt<R>, init: seq<string>, n: nat)
    requires n > 0
    ensures attempt(n - 1).outcome.Ok? ==> ResetOnReturn(attempt, init, n).1 == []
    ensures attempt(n - 1).outcome.Err? ==>
      ResetOnReturn(attempt, init, n).1 == ResetOnReturn(attempt, init, n - 1).1 + attempt(n - 1).requested
  {
  }
}
