/** packages/fetch-counter/lib/FetchCounterFactory.ts: `create` builds a new
    `{count: 0, fetch}` object on every call. */
module PackageFetchCounter {
  import opened Wrappers
  import opened Fetching

  class FetchCounterFactory {
    const network: FetchFunction

    constructor(network: FetchFunction)
      ensures this.network == network
    {
      this.network := network;
    }

    /** `create`: a new counter at 0 over the global fetch. */
    method Create() returns (c: FetchCounter)
      ensures fresh(c) && c.network == network && c.count == 0
    {
      c := new FetchCounter(network);
    }
  }

  /** Counters from separate `create` calls of one factory do not share their count, and a
      call's arguments reach the network unchanged. */
  method CreatedApart(network: FetchFunction, input: Input, init: Option<Init>)
    returns (first: nat, second: nat, r: Outcome<Response>)
    ensures first == 1 && second == 0
    ensures r == network(input, init)
  {
    var factory := new FetchCounterFactory(network);
    var a := factory.Create();
    var b := factory.Create();
    r := a.Fetch(input, init);
    first, second := a.count, b.count;
  }
}
