/** packages/request-counter/lib/RequestCounterFactory.ts: `create` builds a new
    `{count: 0, fetch}` request counter on every call. */
module PackageRequestCounter {
  import opened Wrappers
  import opened Fetching

  class RequestCounterFactory {
    const network: FetchFunction

    constructor(network: FetchFunction)
      ensures this.network == network
    {
      this.network := network;
    }

    /** `create`: a new counter at 0 over the global fetch. */
    method Create() returns (c: FetchCounter)
      ensures fresh(c) && c.network == network && c.count == 0
    {
      c := new FetchCounter(network);
    }
  }

  /** A call whose promise rejects is counted all the same, since the count goes up before
      delegating; a second counter from the same factory stays at 0. */
  method RejectedCounted(network: FetchFunction, input: Input, init: Option<Init>)
    returns (count: nat, other: nat, r: Outcome<Response>)
    requires network(input, init).Err?
    ensures count == 1 && other == 0
    ensures r.Err? && r == network(input, init)
  {
    var factory := new RequestCounterFactory(network);
    var c := factory.Create();
    var d := factory.Create();
    r := c.Fetch(input, init);
    count, other := c.count, d.count;
  }
}
