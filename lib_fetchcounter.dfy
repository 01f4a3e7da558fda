/** lib/FetchCounter.ts: `createFetchCounter` builds a new `{count: 0, fetch}` object. */
module LibFetchCounter {
  import opened Wrappers
  import opened Fetching

  /** `createFetchCounter`: a new object whose count starts at 0. */
  method CreateFetchCounter(network: FetchFunction) returns (c: FetchCounter)
    ensures fresh(c) && c.network == network && c.count == 0
  {
    c := new FetchCounter(network);
  }

  /** Two created counters share nothing: calls through one leave the other at 0, every
      call counts whether its promise resolves or rejects, and each result is what the
      network gives for the same arguments. */
  method SeparateCounters(network: FetchFunction, input: Input, init: Option<Init>)
    returns (first: nat, second: nat, r: Outcome<Response>)
    ensures first == 2 && second == 0
    ensures r == network(input, init)
  {
    var a := CreateFetchCounter(network);
    var b := CreateFetchCounter(network);
    r := a.Fetch(input, init);
    r := a.Fetch(input, init);
    first, second := a.count, b.count;
  }
}
