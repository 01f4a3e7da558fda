/**
 * The `fetch` the TypeScript runners hand to the engine, and the `{count, fetch}` object
 * that `createFetchCounter` and the counter factories return (the shape of `IFetchCounter`
 * in lib/FetchCounter.ts and packages/fetch-counter/lib/FetchCounter.ts, and of
 * `IRequestCounter` in packages/request-counter/lib/RequestCounter.ts).
 *
 * The network is a parameter: a function from the call's arguments to what the returned
 * promise settles to.
 */
module Fetching {
  import opened Wrappers
  import opened Dicts

  /** What `fetch` is called with: a URL string, a `URL` object, a `Request`, or (at run
      time) anything else. */
  datatype Input = Text(text: string) | Url(href: string) | Request(url: string) | OtherInput

  /** The `RequestInit` fields given. */
  type Init = Dict<string, string>

  datatype Response = Response(status: int, body: string)

  /** The global `fetch`: resolves with a response or rejects with an error. */
  type FetchFunction = (Input, Option<Init>) -> Outcome<Response>

  /** The `{count, fetch}` object: `fetch` increments `count`, then forwards its arguments. */
  class FetchCounter {
    const network: FetchFunction
    var count: nat

    constructor(network: FetchFunction)
      ensures this.network == network && count == 0
    {
      this.network := network;
      count := 0;
    }

    /** `fetchCounter.fetch`: counts the call before delegating, so a call whose promise
        rejects is counted too. */
    method Fetch(input: Input, init: Option<Init>) returns (r: Outcome<Response>)
      modifies this
      ensures count == old(count) + 1
      ensures r == network(input, init)
    {
      count := count + 1;
      r := network(input, init);
    }
  }
}
