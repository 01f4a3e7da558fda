/**
 * src/RequestCounter.ts: a class whose `fetch` field is a wrapper that increments the
 * private `count` and forwards to the global fetch; `getFetch` hands out that one wrapper
 * and `getCount` reads the count.
 */
module SrcRequestCounter {
  import opened Wrappers
  import opened Fetching

  /** One call through the wrapper. */
  datatype Call = Call(input: Input, init: Option<Init>)

  class RequestCounter {
    const network: FetchFunction
    var count: nat
    /** The calls made through the wrapper so far. */
    ghost var calls: seq<Call>

    ghost predicate Valid()
      reads this
    {
      count == |calls|
    }

    constructor(network: FetchFunction)
      ensures Valid() && this.network == network && calls == []
    {
      this.network := network;
      count := 0;
      calls := [];
    }

    /** A call through the wrapper `getFetch` returns: counted before delegating, then the
        arguments go to the network unchanged. */
    method Fetch(input: Input, init: Option<Init>) returns (r: Outcome<Response>)
      requires Valid()
      modifies this
      ensures Valid() && calls == old(calls) + [Call(input, init)]
      ensures r == network(input, init)
    {
      count := count + 1;
      calls := calls + [Call(input, init)];
      r := network(input, init);
    }

    /** `getCount`: the number of calls made through the wrapper, failed ones included. */
    function GetCount(): (n: nat)
      requires Valid()
      reads this
      ensures n == |calls|
    {
      count
    }
  }

  /** Every call counts, whatever its promise settles to. */
  method CountAfterCalls(network: FetchFunction, first: Call, second: Call) returns (n: nat, r1: Outcome<Response>, r2: Outcome<Response>)
    ensures n == 2
    ensures r1 == network(first.input, first.init) && r2 == network(second.input, second.init)
  {
    var counter := new RequestCounter(network);
    r1 := counter.Fetch(first.input, first.init);
    r2 := counter.Fetch(second.input, second.init);
    n := counter.GetCount();
  }
}
